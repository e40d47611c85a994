// The released QoS match text: a comma list of key=value terms, in any order.
module QosText {
  import opened Common
  import opened Permutations
  import opened TextOps
  import opened PortText

  datatype Protocol = Tcp | Udp | Icmp | Icmp6 | AnyProtocol

  datatype Classifier = Classifier(
    vlan: Option<int>, protocol: Option<Protocol>, src: Option<PortRange>, dst: Option<PortRange>)

  // A classifier, none (free text, or every frame), or the error of a repeated term.
  datatype Outcome = Spelled(classifier: Classifier) | NoClassifier | GivenTwice

  const KEYS := ["vlan", "protocol", "srcPort", "srcPortRange", "dstPort", "dstPortRange"]
  const MAX_VLAN := 4094

  // key.removesuffix("Range")
  function Group(key: string): string {
    if |key| >= 5 && key[|key| - 5..] == "Range" then key[..|key| - 5] else key
  }

  function LowerChar(c: char): char {
    if 'A' <= c <= 'Z' then c + ('a' - 'A') else c
  }

  function Lower(text: string): string {
    seq(|text|, i requires 0 <= i < |text| => LowerChar(text[i]))
  }

  function ProtocolName(p: Protocol): string {
    match p
    case Tcp => "tcp"
    case Udp => "udp"
    case Icmp => "icmp"
    case Icmp6 => "icmp6"
    case AnyProtocol => "any"
  }

  // RuleProtocol(text)
  function ProtocolOf(text: string): Option<Protocol> {
    if text == "tcp" then Some(Tcp)
    else if text == "udp" then Some(Udp)
    else if text == "icmp" then Some(Icmp)
    else if text == "icmp6" then Some(Icmp6)
    else if text == "any" then Some(AnyProtocol)
    else None
  }

  function QosVlan(value: string): Option<int> {
    if !IsDigits(value) || !(1 <= FromDecimal(value) <= MAX_VLAN) then None else Some(FromDecimal(value))
  }

  function QosPort(value: string): Option<PortRange> {
    match ParseBare(value) case Ok(r) => Some(r) case Err(_) => None
  }

  // One key=value term over the known keys.
  function ParseTerm(term: string): Option<(string, string)> {
    var (key, equals, value) := Partition(Strip(term), '=');
    if !equals || key !in KEYS then None else Some((key, Strip(value)))
  }

  function ParseTerms(terms: seq<string>): Option<seq<(string, string)>> {
    if terms == [] then Some([])
    else
      match ParseTerms(terms[..|terms| - 1])
      case None => None
      case Some(ts) =>
        match ParseTerm(terms[|terms| - 1]) case None => None case Some(t) => Some(ts + [t])
  }

  // The values by group; None when a group is given twice.
  function Collected(terms: seq<(string, string)>): Option<map<string, string>> {
    if terms == [] then Some(map[])
    else
      match Collected(terms[..|terms| - 1])
      case None => None
      case Some(seen) =>
        var (key, value) := terms[|terms| - 1];
        if Group(key) in seen then None else Some(seen[Group(key) := value])
  }

  function Field<T>(seen: map<string, string>, group: string, read: string -> Option<T>): Option<Option<T>> {
    if group !in seen then Some(None)
    else match read(seen[group]) case None => None case Some(v) => Some(Some(v))
  }

  function LowerProtocol(value: string): Option<Protocol> {
    ProtocolOf(Lower(value))
  }

  // One unreadable value spoils the whole text.
  function Assemble(vlan: Option<Option<int>>, protocol: Option<Option<Protocol>>,
                    src: Option<Option<PortRange>>, dst: Option<Option<PortRange>>): Outcome
  {
    if vlan.None? || protocol.None? || src.None? || dst.None? then NoClassifier
    else Spelled(Classifier(vlan.value, protocol.value, src.value, dst.value))
  }

  function Build(seen: map<string, string>): Outcome {
    Assemble(Field(seen, "vlan", QosVlan), Field(seen, "protocol", LowerProtocol),
             Field(seen, "srcPort", QosPort), Field(seen, "dstPort", QosPort))
  }

  function FromTerms(terms: seq<string>): Outcome {
    match ParseTerms(terms)
    case None => NoClassifier
    case Some(ts) => match Collected(ts) case None => GivenTwice case Some(seen) => Build(seen)
  }

  function Parse(text: string): Outcome {
    var body := Strip(text);
    if body == "" then NoClassifier else FromTerms(Split(body, ','))
  }

  method ParseQosClassifier(text: string) returns (r: Outcome)
    ensures r == Parse(text)
  {
    var body := Strip(text);
    if body == "" {
      return NoClassifier;
    }
    var terms := ReadTerms(Split(body, ','));
    if terms.None? {
      return NoClassifier;
    }
    var seen := CollectTerms(terms.value);
    r := if seen.None? then GivenTwice else Build(seen.value);
  }

  // The first loop: a term that is none, or has an unknown key, leaves no classifier.
  method ReadTerms(parts: seq<string>) returns (r: Option<seq<(string, string)>>)
    ensures r == ParseTerms(parts)
  {
    var terms: seq<(string, string)> := [];
    for i := 0 to |parts|
      invariant ParseTerms(parts[..i]) == Some(terms)
    {
      var term := ParseTerm(parts[i]);
      NextTerm(parts, i, terms, term);
      if term.None? {
        UnknownStays(parts, i + 1);
        return None;
      }
      terms := terms + [term.value];
    }
    assert parts[..|parts|] == parts;
    r := Some(terms);
  }

  // The second loop: a group given twice is an error.
  method CollectTerms(terms: seq<(string, string)>) returns (r: Option<map<string, string>>)
    ensures r == Collected(terms)
  {
    var seen: map<string, string> := map[];
    for i := 0 to |terms|
      invariant Collected(terms[..i]) == Some(seen)
    {
      NextGroup(terms, i, seen);
      var (key, value) := terms[i];
      if Group(key) in seen {
        return None;
      }
      seen := seen[Group(key) := value];
    }
    assert terms[..|terms|] == terms;
    r := Some(seen);
  }

  lemma NextTerm(parts: seq<string>, i: nat, terms: seq<(string, string)>, term: Option<(string, string)>)
    requires i < |parts| && ParseTerms(parts[..i]) == Some(terms) && ParseTerm(parts[i]) == term
    ensures ParseTerms(parts[..i + 1]) == if term.Some? then Some(terms + [term.value]) else None
  {
    TakeOneMore(parts, i);
    TermsSnoc(parts[..i], parts[i], term);
  }

  lemma TermsSnoc(front: seq<string>, last: string, term: Option<(string, string)>)
    requires ParseTerm(last) == term
    ensures ParseTerms(front + [last])
         == if ParseTerms(front).None? || term.None? then None else Some(ParseTerms(front).value + [term.value])
  {
    assert (front + [last])[..|front|] == front;
  }

  lemma NextGroup(terms: seq<(string, string)>, i: nat, seen: map<string, string>)
    requires i < |terms| && Collected(terms[..i]) == Some(seen)
    ensures var (key, value) := terms[i];
      if Group(key) in seen then Collected(terms) == None
      else Collected(terms[..i + 1]) == Some(seen[Group(key) := value])
  {
    TakeOneMore(terms, i);
    if Group(terms[i].0) in seen {
      TwiceStays(terms, i + 1);
    }
  }

  lemma {:induction false} UnknownStays(terms: seq<string>, n: nat)
    requires n <= |terms| && ParseTerms(terms[..n]).None?
    ensures ParseTerms(terms).None?
  {
    if n < |terms| {
      assert terms[..|terms| - 1][..n] == terms[..n];
      UnknownStays(terms[..|terms| - 1], n);
    } else {
      assert terms[..n] == terms;
    }
  }

  lemma {:induction false} TwiceStays(terms: seq<(string, string)>, n: nat)
    requires n <= |terms| && Collected(terms[..n]).None?
    ensures Collected(terms).None?
  {
    if n < |terms| {
      assert terms[..|terms| - 1][..n] == terms[..n];
      TwiceStays(terms[..|terms| - 1], n);
    } else {
      assert terms[..n] == terms;
    }
  }

  // ---------------------------------------------------------------- blanks around the text

  lemma {:induction false} LeftStripSnoc(text: string, s: char)
    requires IsSpace(s)
    ensures LeftStrip(text + [s]) == if LeftStrip(text) == "" then "" else LeftStrip(text) + [s]
  {
    if text == "" {
      assert text + [s] == [s];
      assert [s][1..] == "";
    } else if IsSpace(text[0]) {
      LeftStripSnoc(text[1..], s);
      assert (text + [s])[1..] == text[1..] + [s];
    }
  }

  lemma StripSnoc(text: string, s: char)
    requires IsSpace(s)
    ensures Strip(text + [s]) == Strip(text)
  {
    LeftStripSnoc(text, s);
    var kept := LeftStrip(text);
    if kept != "" {
      assert (kept + [s])[..|kept|] == kept;
    }
  }

  // Blanks before the text, or after it, do not change what any term says.
  lemma {:induction false} LeadingBlanks(text: string)
    ensures ParseTerms(Split(LeftStrip(text), ',')) == ParseTerms(Split(text, ','))
  {
    if text != "" && IsSpace(text[0]) {
      LeadingBlanks(text[1..]);
      SplitHead(text[0], text[1..], ',');
      assert text == [text[0]] + text[1..];
      var parts := Split(text[1..], ',');
      assert ([text[0]] + parts[0])[1..] == parts[0];
      SameTerms(Split(text, ','), parts);
    }
  }

  lemma {:induction false} TrailingBlanks(text: string)
    ensures ParseTerms(Split(RightStrip(text), ',')) == ParseTerms(Split(text, ','))
  {
    if text != "" && IsSpace(text[|text| - 1]) {
      var front, s := text[..|text| - 1], text[|text| - 1];
      TrailingBlanks(front);
      var parts := Split(front, ',');
      StripSnoc(parts[|parts| - 1], s);
      SameTerms(Split(text, ','), parts);
    }
  }

  lemma {:induction false} SameTerms(a: seq<string>, b: seq<string>)
    requires |a| == |b| && forall i :: 0 <= i < |a| ==> Strip(a[i]) == Strip(b[i])
    ensures ParseTerms(a) == ParseTerms(b)
  {
    if a != [] {
      SameTerms(a[..|a| - 1], b[..|b| - 1]);
    }
  }

  lemma EmptySaysNothing()
    ensures FromTerms(Split("", ',')) == NoClassifier
  {
    assert [""][..0] == [];
    assert Strip("") == "";
    PartitionNone("", '=');
    assert ParseTerm("").None?;
  }

  // The outcome is what the comma terms of the whole text say.
  lemma ParseIsTerms(text: string)
    ensures Parse(text) == FromTerms(Split(text, ','))
  {
    assert ParseTerms(Split(Strip(text), ',')) == ParseTerms(Split(text, ',')) by {
      LeadingBlanks(text);
      TrailingBlanks(LeftStrip(text));
    }
    EmptySaysNothing();
  }

  // ---------------------------------------------------------------- order

  ghost predicate AllKnown(terms: seq<string>) {
    forall t :: t in terms ==> ParseTerm(t).Some?
  }

  function TermOf(term: string): (string, string) {
    match ParseTerm(term) case Some(t) => t case None => ("", "")
  }

  function GroupOf(term: string): string {
    Group(TermOf(term).0)
  }

  lemma {:induction false} TermsKnown(terms: seq<string>)
    ensures ParseTerms(terms).Some? <==> AllKnown(terms)
    ensures ParseTerms(terms).Some? ==> ParseTerms(terms).value == Map(terms, TermOf)
  {
    if terms != [] {
      var front := terms[..|terms| - 1];
      TermsKnown(front);
      assert terms == front + [terms[|terms| - 1]];
    }
  }

  // No group is given twice.
  ghost predicate GroupsDistinct(terms: seq<string>) {
    forall i, j :: 0 <= i < j < |terms| ==> GroupOf(terms[i]) != GroupOf(terms[j])
  }

  ghost predicate Records(terms: seq<string>, seen: map<string, string>) {
    && (forall g :: g in seen <==> exists t :: t in terms && GroupOf(t) == g)
    && (forall t :: t in terms ==> GroupOf(t) in seen && seen[GroupOf(t)] == TermOf(t).1)
  }

  lemma {:induction false} CollectedTerms(terms: seq<string>)
    ensures Collected(Map(terms, TermOf)).Some? <==> GroupsDistinct(terms)
    ensures Collected(Map(terms, TermOf)).Some? ==> Records(terms, Collected(Map(terms, TermOf)).value)
  {
    if terms != [] {
      var front, last := terms[..|terms| - 1], terms[|terms| - 1];
      assert terms == front + [last];
      assert Map(terms, TermOf) == Map(front, TermOf) + [TermOf(last)];
      assert Map(terms, TermOf)[..|terms| - 1] == Map(front, TermOf);
      CollectedTerms(front);
      DistinctSnoc(front, last);
      if GroupsDistinct(front) {
        CollectedTerm(front, last, Collected(Map(front, TermOf)).value);
      }
    }
  }

  lemma CollectedTerm(front: seq<string>, last: string, seen: map<string, string>)
    requires Records(front, seen)
    ensures GroupOf(last) in seen <==> exists t :: t in front && GroupOf(t) == GroupOf(last)
    ensures GroupOf(last) !in seen ==> Records(front + [last], seen[GroupOf(last) := TermOf(last).1])
  {
    if GroupOf(last) !in seen {
      RecordsSnoc(front, last, seen);
    }
  }

  lemma DistinctSnoc(front: seq<string>, last: string)
    ensures GroupsDistinct(front + [last]) <==>
              GroupsDistinct(front) && forall t :: t in front ==> GroupOf(t) != GroupOf(last)
  {
    var terms := front + [last];
    assert terms[|front|] == last && forall i :: 0 <= i < |front| ==> terms[i] == front[i];
    if GroupsDistinct(terms) {
      forall t | t in front ensures GroupOf(t) != GroupOf(last) {
        var i :| 0 <= i < |front| && front[i] == t;
        assert GroupOf(terms[i]) != GroupOf(terms[|front|]);
      }
      forall i, j | 0 <= i < j < |front| ensures GroupOf(front[i]) != GroupOf(front[j]) {
        assert GroupOf(terms[i]) != GroupOf(terms[j]);
      }
    }
  }

  lemma RecordsSnoc(front: seq<string>, last: string, seen: map<string, string>)
    requires Records(front, seen) && GroupOf(last) !in seen
    ensures Records(front + [last], seen[GroupOf(last) := TermOf(last).1])
  {
    var terms, after := front + [last], seen[GroupOf(last) := TermOf(last).1];
    forall g ensures g in after <==> exists t :: t in terms && GroupOf(t) == g {
      if g in after {
        if g == GroupOf(last) {
          assert last in terms;
        } else {
          var t :| t in front && GroupOf(t) == g;
          assert t in terms;
        }
      }
    }
  }

  ghost predicate NoRepeats<T>(s: seq<T>) {
    forall i, j :: 0 <= i < j < |s| ==> s[i] != s[j]
  }

  lemma {:induction false} NoRepeatsCounts<T>(s: seq<T>)
    ensures NoRepeats(s) <==> forall x :: x in multiset(s) ==> multiset(s)[x] == 1
  {
    if s != [] {
      var front, last := s[..|s| - 1], s[|s| - 1];
      assert s == front + [last];
      NoRepeatsCounts(front);
      if NoRepeats(s) {
        assert last !in front;
        assert last !in multiset(front);
      }
      if forall x :: x in multiset(s) ==> multiset(s)[x] == 1 {
        assert multiset(s)[last] == 1;
        forall x | x in multiset(front) ensures multiset(front)[x] == 1 {
          assert multiset(s)[x] == multiset(front)[x] + (if x == last then 1 else 0);
        }
        assert last !in multiset(front);
        assert last !in front;
      }
    }
  }

  lemma DistinctByMultiset(a: seq<string>, b: seq<string>)
    requires multiset(a) == multiset(b)
    ensures GroupsDistinct(a) <==> GroupsDistinct(b)
  {
    MapPermutes(a, b, GroupOf);
    NoRepeatsCounts(Map(a, GroupOf));
    NoRepeatsCounts(Map(b, GroupOf));
    assert GroupsDistinct(a) <==> NoRepeats(Map(a, GroupOf));
    assert GroupsDistinct(b) <==> NoRepeats(Map(b, GroupOf));
  }

  lemma SameRecords(a: seq<string>, b: seq<string>, m: map<string, string>, n: map<string, string>)
    requires multiset(a) == multiset(b) && Records(a, m) && Records(b, n)
    ensures m == n
  {
    forall g
      ensures g in m <==> g in n
      ensures g in m ==> m[g] == n[g]
    {
      if g in m {
        var t :| t in a && GroupOf(t) == g;
        SameMembers(a, b, t);
      }
      if g in n {
        var t :| t in b && GroupOf(t) == g;
        SameMembers(a, b, t);
      }
    }
  }

  // What some terms say does not depend on their order.
  lemma TermsUnordered(a: seq<string>, b: seq<string>)
    requires multiset(a) == multiset(b)
    ensures FromTerms(a) == FromTerms(b)
  {
    TermsKnown(a);
    TermsKnown(b);
    forall t: string ensures t in a <==> t in b {
      SameMembers(a, b, t);
    }
    if AllKnown(a) {
      CollectedTerms(a);
      CollectedTerms(b);
      DistinctByMultiset(a, b);
      if GroupsDistinct(a) {
        SameRecords(a, b, Collected(Map(a, TermOf)).value, Collected(Map(b, TermOf)).value);
      }
    }
  }

  ghost predicate CommaFree(terms: seq<string>) {
    forall t :: t in terms ==> ',' !in t
  }

  // Permuting the comma terms of a text never changes its outcome.
  lemma OrderInsensitive(a: seq<string>, b: seq<string>)
    requires a != [] && CommaFree(a) && multiset(a) == multiset(b)
    ensures Parse(Join(a, ",")) == Parse(Join(b, ","))
  {
    assert |a| == |multiset(a)| == |multiset(b)| == |b|;
    forall t | t in b ensures t in a {
      SameMembers(a, b, t);
    }
    SplitJoin(a, ',');
    SplitJoin(b, ',');
    ParseIsTerms(Join(a, ","));
    ParseIsTerms(Join(b, ","));
    TermsUnordered(a, b);
  }

  // The error arises exactly when every term has a known key and some group repeats.
  lemma ErrorIff(text: string)
    ensures Parse(text) == GivenTwice <==> AllKnown(Split(text, ',')) && !GroupsDistinct(Split(text, ','))
  {
    var terms := Split(text, ',');
    ParseIsTerms(text);
    TermsKnown(terms);
    CollectedTerms(terms);
  }

  // ---------------------------------------------------------------- the neutral spelling

  ghost predicate Spellable(c: Classifier) {
    && (c.vlan.Some? ==> 1 <= c.vlan.value <= MAX_VLAN)
    && (c.src.Some? ==> InBounds(c.src.value))
    && (c.dst.Some? ==> InBounds(c.dst.value))
    && c != Classifier(None, None, None, None)
  }

  function PortKey(group: string, r: PortRange): string {
    if r.first == r.last then group else group + "Range"
  }

  function VlanTerm(c: Classifier): seq<string>
    requires c.vlan.Some? ==> c.vlan.value >= 0
  {
    if c.vlan.Some? then ["vlan=" + ToDecimal(c.vlan.value)] else []
  }

  function ProtocolTerm(c: Classifier): seq<string> {
    if c.protocol.Some? then ["protocol=" + ProtocolName(c.protocol.value)] else []
  }

  function PortTerm(group: string, r: Option<PortRange>): seq<string>
    requires r.Some? ==> 0 <= r.value.first && 0 <= r.value.last
  {
    if r.Some? then [PortKey(group, r.value) + "=" + r.value.Text()] else []
  }

  // The terms that spell a classifier, one per field that is set.
  function Spelling(c: Classifier): seq<string>
    requires c.vlan.Some? ==> c.vlan.value >= 0
    requires c.src.Some? ==> 0 <= c.src.value.first && 0 <= c.src.value.last
    requires c.dst.Some? ==> 0 <= c.dst.value.first && 0 <= c.dst.value.last
  {
    VlanTerm(c) + ProtocolTerm(c) + PortTerm("srcPort", c.src) + PortTerm("dstPort", c.dst)
  }

  lemma TermReads(key: string, value: string)
    requires key in KEYS && Tight(key) && key != "" && '=' !in key
    requires Tight(value) && value != ""
    ensures ParseTerm(key + "=" + value) == Some((key, value))
  {
    var term := key + "=" + value;
    assert term[0] == key[0] && term[|term| - 1] == value[|value| - 1];
    StripTight(term);
    PartitionAt(key, value, '=');
    StripTight(value);
  }

  lemma KeyShape(k: string)
    requires k in KEYS
    ensures Tight(k) && k != "" && '=' !in k && ',' !in k
  {
    assert || k == "vlan" || k == "protocol" || k == "srcPort" || k == "srcPortRange"
           || k == "dstPort" || k == "dstPortRange";
  }

  lemma OtherGroups()
    ensures Group("vlan") == "vlan" && Group("protocol") == "protocol"
  {
    assert "protocol"[|"protocol"| - 5..] == "tocol";
  }

  lemma PortGroups()
    ensures Group("srcPort") == Group("srcPortRange") == "srcPort"
    ensures Group("dstPort") == Group("dstPortRange") == "dstPort"
  {
    assert "srcPortRange"[|"srcPortRange"| - 5..] == "Range" && "dstPortRange"[|"dstPortRange"| - 5..] == "Range";
    assert "srcPort"[|"srcPort"| - 5..] == "cPort" && "dstPort"[|"dstPort"| - 5..] == "tPort";
    assert "srcPortRange"[..|"srcPortRange"| - 5] == "srcPort" && "dstPortRange"[..|"dstPortRange"| - 5] == "dstPort";
  }

  lemma PortKeyKnown(group: string, r: PortRange)
    requires group in ["srcPort", "dstPort"]
    ensures PortKey(group, r) in KEYS && Group(PortKey(group, r)) == group
  {
    PortGroups();
    assert "srcPort" + "Range" == KEYS[3] && "dstPort" + "Range" == KEYS[5];
    assert KEYS[2] == "srcPort" && KEYS[4] == "dstPort";
  }

  lemma PortTermReads(group: string, r: PortRange)
    requires group in ["srcPort", "dstPort"] && InBounds(r)
    ensures var term := PortKey(group, r) + "=" + r.Text();
      ParseTerm(term).Some? && GroupOf(term) == group && TermOf(term).1 == r.Text() && ',' !in term
    ensures QosPort(r.Text()) == Some(r)
  {
    PortKeyKnown(group, r);
    KeyShape(PortKey(group, r));
    RangeText(r);
    TermReads(PortKey(group, r), r.Text());
    BareSpells(r.Text(), r);
  }

  lemma DigitsTight(n: nat)
    ensures Tight(ToDecimal(n)) && ToDecimal(n) != "" && ',' !in ToDecimal(n)
  {
    DecimalRoundTrip(n);
    var text := ToDecimal(n);
    assert text[0] in text && text[|text| - 1] in text;
  }

  lemma VlanKeyReads(value: string)
    requires Tight(value) && value != "" && ',' !in value
    ensures var term := "vlan=" + value;
      ParseTerm(term).Some? && GroupOf(term) == "vlan" && TermOf(term).1 == value && ',' !in term
  {
    assert KEYS[0] == "vlan";
    KeyShape("vlan");
    OtherGroups();
    TermReads("vlan", value);
    assert "vlan" + "=" + value == "vlan=" + value;
  }

  lemma VlanTermReads(n: nat)
    requires 1 <= n <= MAX_VLAN
    ensures var term := "vlan=" + ToDecimal(n);
      ParseTerm(term).Some? && GroupOf(term) == "vlan" && TermOf(term).1 == ToDecimal(n) && ',' !in term
    ensures QosVlan(ToDecimal(n)) == Some(n)
  {
    DigitsTight(n);
    DecimalRoundTrip(n);
    VlanKeyReads(ToDecimal(n));
  }

  lemma ProtocolNameReads(p: Protocol)
    ensures ProtocolOf(Lower(ProtocolName(p))) == Some(p)
    ensures Tight(ProtocolName(p)) && ProtocolName(p) != "" && ',' !in ProtocolName(p)
  {
    assert Lower(ProtocolName(p)) == ProtocolName(p);
  }

  lemma ProtocolTermReads(p: Protocol)
    ensures var term := "protocol=" + ProtocolName(p);
      ParseTerm(term) == Some(("protocol", ProtocolName(p))) && ',' !in term && GroupOf(term) == "protocol"
  {
    ProtocolNameReads(p);
    ProtocolKeyReads(ProtocolName(p));
  }

  lemma ProtocolKeyReads(value: string)
    requires Tight(value) && value != "" && ',' !in value
    ensures var term := "protocol=" + value;
      ParseTerm(term) == Some(("protocol", value)) && ',' !in term && GroupOf(term) == "protocol"
  {
    assert KEYS[1] == "protocol";
    KeyShape("protocol");
    OtherGroups();
    TermReads("protocol", value);
    assert "protocol" + "=" + value == "protocol=" + value;
  }

  // The values of a spelling, by group.
  function VlanValue(c: Classifier): map<string, string>
    requires c.vlan.Some? ==> c.vlan.value >= 0
  {
    if c.vlan.Some? then map["vlan" := ToDecimal(c.vlan.value)] else map[]
  }

  function ProtocolValue(c: Classifier): map<string, string> {
    if c.protocol.Some? then map["protocol" := ProtocolName(c.protocol.value)] else map[]
  }

  function PortValue(group: string, r: Option<PortRange>): map<string, string>
    requires r.Some? ==> 0 <= r.value.first && 0 <= r.value.last
  {
    if r.Some? then map[group := r.value.Text()] else map[]
  }

  function Values(c: Classifier): map<string, string>
    requires c.vlan.Some? ==> c.vlan.value >= 0
    requires c.src.Some? ==> 0 <= c.src.value.first && 0 <= c.src.value.last
    requires c.dst.Some? ==> 0 <= c.dst.value.first && 0 <= c.dst.value.last
  {
    VlanValue(c) + ProtocolValue(c) + PortValue("srcPort", c.src) + PortValue("dstPort", c.dst)
  }

  lemma GroupsDiffer()
    ensures "vlan" != "protocol" && "vlan" != "srcPort" && "vlan" != "dstPort"
    ensures "protocol" != "srcPort" && "protocol" != "dstPort" && "srcPort" != "dstPort"
  {
    assert |"vlan"| == 4 && |"protocol"| == 8 && |"srcPort"| == 7 && |"dstPort"| == 7;
    assert "srcPort"[0] == 's' && "dstPort"[0] == 'd';
  }

  lemma VlanField(c: Classifier)
    requires Spellable(c)
    ensures Field(Values(c), "vlan", QosVlan) == Some(c.vlan)
  {
    OtherValues(c);
    if c.vlan.Some? {
      VlanTermReads(c.vlan.value);
    }
  }

  lemma OtherValues(c: Classifier)
    requires Spellable(c)
    ensures "vlan" in Values(c) <==> c.vlan.Some?
    ensures c.vlan.Some? ==> Values(c)["vlan"] == ToDecimal(c.vlan.value)
    ensures "protocol" in Values(c) <==> c.protocol.Some?
    ensures c.protocol.Some? ==> Values(c)["protocol"] == ProtocolName(c.protocol.value)
  {
    GroupsDiffer();
  }

  lemma ProtocolField(c: Classifier)
    requires Spellable(c)
    ensures Field(Values(c), "protocol", LowerProtocol) == Some(c.protocol)
  {
    OtherValues(c);
    if c.protocol.Some? {
      ProtocolNameReads(c.protocol.value);
    }
  }

  lemma SourceField(c: Classifier)
    requires Spellable(c)
    ensures Field(Values(c), "srcPort", QosPort) == Some(c.src)
  {
    PortValues(c);
    if c.src.Some? {
      PortTermReads("srcPort", c.src.value);
    }
  }

  // Each group of the values is one field's.
  lemma PortValues(c: Classifier)
    requires Spellable(c)
    ensures "srcPort" in Values(c) <==> c.src.Some?
    ensures c.src.Some? ==> Values(c)["srcPort"] == c.src.value.Text()
    ensures "dstPort" in Values(c) <==> c.dst.Some?
    ensures c.dst.Some? ==> Values(c)["dstPort"] == c.dst.value.Text()
  {
    GroupsDiffer();
  }

  lemma DestinationField(c: Classifier)
    requires Spellable(c)
    ensures Field(Values(c), "dstPort", QosPort) == Some(c.dst)
  {
    PortValues(c);
    if c.dst.Some? {
      PortTermReads("dstPort", c.dst.value);
    }
  }

  lemma BuildValues(c: Classifier)
    requires Spellable(c)
    ensures Build(Values(c)) == Spelled(c)
  {
    VlanField(c);
    ProtocolField(c);
    SourceField(c);
    DestinationField(c);
  }

  // Terms with known keys and no commas, and the values they give.
  ghost predicate Gathers(terms: seq<string>, seen: map<string, string>) {
    AllKnown(terms) && CommaFree(terms) && Collected(Map(terms, TermOf)) == Some(seen)
  }

  // Reading one more term whose group is new.
  lemma TermAdds(terms: seq<string>, seen: map<string, string>, term: string)
    requires Gathers(terms, seen)
    requires ParseTerm(term).Some? && ',' !in term && GroupOf(term) !in seen
    ensures Gathers(terms + [term], seen + map[GroupOf(term) := TermOf(term).1])
  {
    assert Map(terms + [term], TermOf) == Map(terms, TermOf) + [TermOf(term)];
    assert (Map(terms, TermOf) + [TermOf(term)])[..|terms|] == Map(terms, TermOf);
    assert seen + map[GroupOf(term) := TermOf(term).1] == seen[GroupOf(term) := TermOf(term).1];
  }

  lemma VlanGathers(c: Classifier)
    requires Spellable(c)
    ensures Gathers(VlanTerm(c), VlanValue(c))
  {
    assert Map([], TermOf) == [];
    assert Gathers([], map[]);
    if c.vlan.Some? {
      VlanTermReads(c.vlan.value);
      TermAdds([], map[], VlanTerm(c)[0]);
      assert [] + [VlanTerm(c)[0]] == VlanTerm(c);
      assert map[] + VlanValue(c) == VlanValue(c);
    }
  }

  lemma ProtocolGathers(terms: seq<string>, seen: map<string, string>, c: Classifier)
    requires Gathers(terms, seen) && "protocol" !in seen
    ensures Gathers(terms + ProtocolTerm(c), seen + ProtocolValue(c))
  {
    if c.protocol.Some? {
      ProtocolTermReads(c.protocol.value);
      TermAdds(terms, seen, ProtocolTerm(c)[0]);
    } else {
      assert terms + [] == terms && seen + map[] == seen;
    }
  }

  lemma PortGathers(terms: seq<string>, seen: map<string, string>, group: string, r: Option<PortRange>)
    requires Gathers(terms, seen) && group in ["srcPort", "dstPort"] && group !in seen
    requires r.Some? ==> InBounds(r.value)
    ensures Gathers(terms + PortTerm(group, r), seen + PortValue(group, r))
  {
    if r.Some? {
      PortTermReads(group, r.value);
      TermAdds(terms, seen, PortTerm(group, r)[0]);
    } else {
      assert terms + [] == terms && seen + map[] == seen;
    }
  }

  lemma SpellingGathers(c: Classifier)
    requires Spellable(c)
    ensures Gathers(Spelling(c), Values(c))
  {
    GroupsDiffer();
    var v, p, src := VlanValue(c), ProtocolValue(c), PortValue("srcPort", c.src);
    assert "protocol" !in v && "srcPort" !in v + p && "dstPort" !in v + p + src;
    VlanGathers(c);
    ProtocolGathers(VlanTerm(c), v, c);
    PortGathers(VlanTerm(c) + ProtocolTerm(c), v + p, "srcPort", c.src);
    PortGathers(VlanTerm(c) + ProtocolTerm(c) + PortTerm("srcPort", c.src), v + p + src, "dstPort", c.dst);
  }

  // The neutral spelling of a classifier, its terms in any order, parses back to it.
  lemma QosRoundTrip(c: Classifier, terms: seq<string>)
    requires Spellable(c) && multiset(terms) == multiset(Spelling(c))
    ensures Parse(Join(terms, ",")) == Spelled(c)
  {
    var spelling := Spelling(c);
    SpellingGathers(c);
    assert spelling != [];
    SplitJoin(spelling, ',');
    ParseIsTerms(Join(spelling, ","));
    TermsKnown(spelling);
    BuildValues(c);
    OrderInsensitive(spelling, terms);
  }
}
