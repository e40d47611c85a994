// The exact grammar of the QoS match text: which texts have which classifier, which have none,
// and which are an error.
module QosGrammar {
  import opened Common
  import opened PortText
  import opened QosText
  import opened TextOps

  // The stripped term is the key, an equals sign and the value with blanks around it.
  ghost predicate Gives(term: string, key: string, value: string) {
    var body := Strip(term);
    && key in ["vlan", "protocol", "srcPort", "srcPortRange", "dstPort", "dstPortRange"]
    && |body| > |key| && body[..|key|] == key && body[|key|] == '='
    && value == Strip(body[|key| + 1..])
  }

  lemma KeyHasNoEquals(key: string)
    requires key in KEYS
    ensures '=' !in key
  {
    KeyShape(key);
  }

  lemma SplitAtEquals(body: string, key: string)
    requires '=' !in key && |body| > |key| && body[..|key|] == key && body[|key|] == '='
    ensures Partition(body, '=') == (key, true, body[|key| + 1..])
  {
    PartitionAt(key, body[|key| + 1..], '=');
    assert body == key + ['='] + body[|key| + 1..];
  }

  // A term is read as a key and a value exactly when it gives them.
  lemma TermIff(term: string, key: string, value: string)
    ensures ParseTerm(term) == Some((key, value)) <==> Gives(term, key, value)
  {
    var body := Strip(term);
    PartitionForm(body, '=');
    if Gives(term, key, value) {
      KeyHasNoEquals(key);
      SplitAtEquals(body, key);
    }
    var (k, equals, v) := Partition(body, '=');
    if equals {
      assert body == k + ['='] + v;
      assert body[|k| + 1..] == v && body[..|k|] == k;
    }
  }

  // ---------------------------------------------------------------- values

  ghost predicate SpellsVlan(text: string, n: int) {
    IsDigits(text) && FromDecimal(text) == n && 1 <= n <= 4094
  }

  // The same letters, in either case of ASCII.
  ghost predicate SameLetters(text: string, lower: string) {
    && |text| == |lower|
    && forall i :: 0 <= i < |text| ==>
         text[i] == lower[i] || ('A' <= text[i] <= 'Z' && lower[i] as int == text[i] as int + 32)
  }

  ghost predicate SpellsProtocol(text: string, p: Protocol) {
    SameLetters(text, match p case Tcp => "tcp" case Udp => "udp" case Icmp => "icmp" case Icmp6 => "icmp6"
                              case AnyProtocol => "any")
  }

  lemma VlanIff(text: string, n: int)
    ensures QosVlan(text) == Some(n) <==> SpellsVlan(text, n)
  {
  }

  lemma LowerIs(text: string, name: string)
    requires forall c :: c in name ==> !('A' <= c <= 'Z')
    ensures Lower(text) == name <==> SameLetters(text, name)
  {
    if Lower(text) == name {
      forall i | 0 <= i < |text|
        ensures text[i] == name[i] || ('A' <= text[i] <= 'Z' && name[i] as int == text[i] as int + 32)
      {
        assert name[i] == LowerChar(text[i]);
      }
    }
    if SameLetters(text, name) {
      forall i | 0 <= i < |text| ensures Lower(text)[i] == name[i] {
        assert name[i] in name;
      }
    }
  }

  // A value names a protocol exactly when it is the protocol's name in any letter case.
  lemma ProtocolIff(text: string, p: Protocol)
    ensures LowerProtocol(text) == Some(p) <==> SpellsProtocol(text, p)
  {
    LowerIs(text, ProtocolName(p));
    NameIff(Lower(text), p);
  }

  lemma NameIff(text: string, p: Protocol)
    ensures ProtocolOf(text) == Some(p) <==> text == ProtocolName(p)
  {
    assert |"tcp"| == 3 && |"udp"| == 3 && |"icmp"| == 4 && |"icmp6"| == 5 && |"any"| == 3;
    assert "tcp"[0] == 't' && "udp"[0] == 'u' && "any"[0] == 'a';
  }

  lemma PortIff(text: string, r: PortRange)
    ensures QosPort(text) == Some(r) <==> Spells(text, r)
  {
    BareSpells(text, r);
  }

  // ---------------------------------------------------------------- fields

  function KeyOf(term: string): string {
    TermOf(term).0
  }

  function ValueOf(term: string): string {
    TermOf(term).1
  }

  ghost predicate HasKey(terms: seq<string>, keys: set<string>) {
    exists t :: t in terms && KeyOf(t) in keys
  }

  ghost predicate AllSpell<T(!new)>(terms: seq<string>, keys: set<string>, v: T, spells: (string, T) -> bool) {
    forall t :: t in terms && KeyOf(t) in keys ==> spells(ValueOf(t), v)
  }

  // The field is set exactly when a term has one of its keys, and to what such a term's value spells.
  ghost predicate FieldSays<T(!new)>(terms: seq<string>, keys: set<string>, field: Option<T>,
                                     spells: (string, T) -> bool)
  {
    && (field.Some? <==> HasKey(terms, keys))
    && (field.Some? ==> AllSpell(terms, keys, field.value, spells))
  }

  ghost predicate InGroup(terms: seq<string>, keys: set<string>, group: string) {
    forall t :: t in terms ==> (KeyOf(t) in keys <==> GroupOf(t) == group)
  }

  // The value of a group is what each term of it gives.
  lemma GroupValue(terms: seq<string>, seen: map<string, string>, group: string, keys: set<string>)
    requires Records(terms, seen) && InGroup(terms, keys, group)
    ensures group in seen <==> HasKey(terms, keys)
    ensures forall t :: t in terms && KeyOf(t) in keys ==> group in seen && ValueOf(t) == seen[group]
  {
    if group in seen {
      var t :| t in terms && GroupOf(t) == group;
      assert KeyOf(t) in keys;
    }
  }

  lemma ValueSpells<T(!new)>(terms: seq<string>, keys: set<string>, value: string, v: T, spells: (string, T) -> bool)
    requires HasKey(terms, keys)
    requires forall t :: t in terms && KeyOf(t) in keys ==> ValueOf(t) == value
    ensures AllSpell(terms, keys, v, spells) <==> spells(value, v)
  {
    var t :| t in terms && KeyOf(t) in keys;
  }

  ghost predicate ReadsAs<T(!new)>(read: string -> Option<T>, spells: (string, T) -> bool) {
    forall s, v :: read(s) == Some(v) <==> spells(s, v)
  }

  lemma FieldIff<T(!new)>(terms: seq<string>, seen: map<string, string>, group: string, keys: set<string>,
                          read: string -> Option<T>, spells: (string, T) -> bool, field: Option<T>)
    requires Records(terms, seen) && InGroup(terms, keys, group) && ReadsAs(read, spells)
    ensures Field(seen, group, read) == Some(field) <==> FieldSays(terms, keys, field, spells)
  {
    GroupValue(terms, seen, group, keys);
    if group in seen && field.Some? {
      ValueSpells(terms, keys, seen[group], field.value, spells);
      assert read(seen[group]) == Some(field.value) <==> spells(seen[group], field.value);
    }
  }

  lemma KnownKey(t: string)
    requires ParseTerm(t).Some?
    ensures KeyOf(t) in KEYS && GroupOf(t) == Group(KeyOf(t))
  {
  }

  lemma KeyGroups(k: string)
    requires k in KEYS
    ensures Group(k) == "vlan" <==> k == "vlan"
    ensures Group(k) == "protocol" <==> k == "protocol"
    ensures Group(k) == "srcPort" <==> k == "srcPort" || k == "srcPortRange"
    ensures Group(k) == "dstPort" <==> k == "dstPort" || k == "dstPortRange"
  {
    assert || k == "vlan" || k == "protocol" || k == "srcPort" || k == "srcPortRange"
           || k == "dstPort" || k == "dstPortRange";
    OtherGroups();
    PortGroups();
    GroupsDiffer();
    assert |"srcPortRange"| == 12 && |"dstPortRange"| == 12;
  }

  lemma TermsInGroups(terms: seq<string>)
    requires AllKnown(terms)
    ensures InGroup(terms, {"vlan"}, "vlan") && InGroup(terms, {"protocol"}, "protocol")
    ensures InGroup(terms, {"srcPort", "srcPortRange"}, "srcPort")
    ensures InGroup(terms, {"dstPort", "dstPortRange"}, "dstPort")
  {
    forall t | t in terms
      ensures KeyOf(t) == "vlan" <==> GroupOf(t) == "vlan"
      ensures KeyOf(t) == "protocol" <==> GroupOf(t) == "protocol"
      ensures KeyOf(t) == "srcPort" || KeyOf(t) == "srcPortRange" <==> GroupOf(t) == "srcPort"
      ensures KeyOf(t) == "dstPort" || KeyOf(t) == "dstPortRange" <==> GroupOf(t) == "dstPort"
    {
      KnownKey(t);
      KeyGroups(KeyOf(t));
    }
  }

  // ---------------------------------------------------------------- the grammar

  ghost predicate Says(terms: seq<string>, c: Classifier) {
    && FieldSays(terms, {"vlan"}, c.vlan, (s, n) => SpellsVlan(s, n))
    && FieldSays(terms, {"protocol"}, c.protocol, (s, p) => SpellsProtocol(s, p))
    && FieldSays(terms, {"srcPort", "srcPortRange"}, c.src, (s, r) => Spells(s, r))
    && FieldSays(terms, {"dstPort", "dstPortRange"}, c.dst, (s, r) => Spells(s, r))
  }

  lemma BuildIff(terms: seq<string>, seen: map<string, string>, c: Classifier)
    requires AllKnown(terms) && Records(terms, seen)
    ensures Build(seen) == Spelled(c) <==> Says(terms, c)
  {
    TermsInGroups(terms);
    forall s, n ensures QosVlan(s) == Some(n) <==> SpellsVlan(s, n) { VlanIff(s, n); }
    forall s, p ensures LowerProtocol(s) == Some(p) <==> SpellsProtocol(s, p) { ProtocolIff(s, p); }
    forall s, r ensures QosPort(s) == Some(r) <==> Spells(s, r) { PortIff(s, r); }
    assert ReadsAs(QosVlan, (s, n) => SpellsVlan(s, n)) && ReadsAs(LowerProtocol, (s, p) => SpellsProtocol(s, p));
    assert ReadsAs(QosPort, (s, r) => Spells(s, r));
    FieldIff(terms, seen, "vlan", {"vlan"}, QosVlan, (s, n) => SpellsVlan(s, n), c.vlan);
    FieldIff(terms, seen, "protocol", {"protocol"}, LowerProtocol, (s, p) => SpellsProtocol(s, p), c.protocol);
    FieldIff(terms, seen, "srcPort", {"srcPort", "srcPortRange"}, QosPort, (s, r) => Spells(s, r), c.src);
    FieldIff(terms, seen, "dstPort", {"dstPort", "dstPortRange"}, QosPort, (s, r) => Spells(s, r), c.dst);
  }

  // A text has a classifier exactly when its comma terms are known, no group is given twice, and
  // every field says what its terms spell.
  lemma SpelledIff(text: string, c: Classifier)
    ensures var terms := Split(text, ',');
      Parse(text) == Spelled(c) <==> AllKnown(terms) && GroupsDistinct(terms) && Says(terms, c)
  {
    var terms := Split(text, ',');
    ParseIsTerms(text);
    TermsKnown(terms);
    if AllKnown(terms) {
      CollectedTerms(terms);
      if GroupsDistinct(terms) {
        BuildIff(terms, Collected(Map(terms, TermOf)).value, c);
      }
    }
  }
}
