// The greedy pairing of removed and added members that share a signature text.
module RenameMatching {
  import opened Common
  import opened ContractSurface
  import TextOps

  // No earlier removed member has the signature of the i-th.
  ghost predicate FirstOfSignature(removed: seq<Member>, i: nat)
    requires i < |removed|
  {
    forall j :: 0 <= j < i ==> SignatureText(removed[j]) != SignatureText(removed[i])
  }

  ghost predicate Pairs(removed: seq<Member>, added: seq<Member>, renamed: map<string, string>, i: nat)
    requires i < |removed|
  {
    var m := removed[i];
    && (m.name in renamed <==> |Twins(added, m)| == 1 && FirstOfSignature(removed, i))
    && (m.name in renamed ==> |Twins(added, m)| == 1 && renamed[m.name] == Twins(added, m)[0].name)
  }

  function NamesOf(s: seq<Member>): set<string> {
    set m | m in s :: m.name
  }

  ghost predicate PairsAll(removed: seq<Member>, added: seq<Member>, renamed: map<string, string>) {
    && renamed.Keys <= NamesOf(removed)
    && forall i :: 0 <= i < |removed| ==> Pairs(removed, added, renamed, i)
  }

  lemma TwinsHold(added: seq<Member>, m: Member, a: Member)
    ensures a in Twins(added, m) <==> a in added && SignatureText(a) == SignatureText(m)
  {
    FilterMember(added, (x: Member) => SignatureText(x) == SignatureText(m), a);
  }

  lemma TwinsBySignature(added: seq<Member>, m: Member, n: Member)
    requires SignatureText(m) == SignatureText(n)
    ensures Twins(added, m) == Twins(added, n)
  {
    FilterSame(added, (a: Member) => SignatureText(a) == SignatureText(m),
               (a: Member) => SignatureText(a) == SignatureText(n));
  }

  lemma SameMember(s: seq<Member>, a: Member, b: Member)
    requires Distinct(s, MemberName) && a in s && b in s && a.name == b.name
    ensures a == b
  {
    LookupDistinct(s, MemberName, a);
    LookupDistinct(s, MemberName, b);
  }

  // A lone twin shared by two removed members means they share their signature.
  lemma SharedTwin(added: seq<Member>, m: Member, n: Member)
    requires Distinct(added, MemberName)
    requires |Twins(added, m)| == 1 && |Twins(added, n)| == 1
    requires Twins(added, m)[0].name == Twins(added, n)[0].name
    ensures SignatureText(m) == SignatureText(n)
  {
    var a, b := Twins(added, m)[0], Twins(added, n)[0];
    TwinsHold(added, m, a);
    TwinsHold(added, n, b);
    SameMember(added, a, b);
  }

  // Among the members up to i, some first one has the signature of the i-th.
  lemma {:induction false} FirstExists(removed: seq<Member>, i: nat) returns (j: nat)
    requires i < |removed|
    ensures j <= i && FirstOfSignature(removed, j) && SignatureText(removed[j]) == SignatureText(removed[i])
  {
    j := i;
    if !FirstOfSignature(removed, i) {
      var k :| 0 <= k < i && SignatureText(removed[k]) == SignatureText(removed[i]);
      j := FirstExists(removed, k);
    }
  }

  // The twin is taken already exactly when an earlier removed member has the same signature.
  lemma TakenIffNotFirst(front: seq<Member>, m: Member, added: seq<Member>, before: map<string, string>)
    requires Distinct(added, MemberName) && |Twins(added, m)| == 1
    requires PairsAll(front, added, before)
    ensures Twins(added, m)[0].name in before.Values <==> !FirstOfSignature(front + [m], |front|)
  {
    var all, twin := front + [m], Twins(added, m)[0];
    if twin.name in before.Values {
      var n :| n in before && before[n] == twin.name;
      assert n in NamesOf(front);
      var i :| 0 <= i < |front| && front[i].name == n;
      assert Pairs(front, added, before, i);
      SharedTwin(added, front[i], m);
      assert all[i] == front[i];
    }
    if !FirstOfSignature(all, |front|) {
      var k :| 0 <= k < |front| && SignatureText(all[k]) == SignatureText(m);
      var j := FirstExists(front, k);
      TwinsBySignature(added, front[j], m);
      assert Pairs(front, added, before, j);
      assert before[front[j].name] == twin.name;
    }
  }

  lemma RenameStep(front: seq<Member>, m: Member, added: seq<Member>, before: map<string, string>)
    requires Distinct(front + [m], MemberName) && Distinct(added, MemberName)
    requires PairsAll(front, added, before)
    ensures var twins := Twins(added, m);
      PairsAll(front + [m], added,
               if |twins| == 1 && twins[0].name !in before.Values then before[m.name := twins[0].name] else before)
  {
    var removed, twins := front + [m], Twins(added, m);
    var renamed := if |twins| == 1 && twins[0].name !in before.Values then before[m.name := twins[0].name] else before;
    assert NamesOf(removed) == NamesOf(front) + {m.name};
    assert m.name !in NamesOf(front) by {
      forall i | 0 <= i < |front| ensures front[i].name != m.name {
        assert MemberName(removed[i]) != MemberName(removed[|front|]);
      }
    }
    if |twins| == 1 {
      TakenIffNotFirst(front, m, added, before);
    }
    forall i | 0 <= i < |removed| ensures Pairs(removed, added, renamed, i) {
      if i < |front| {
        assert Pairs(front, added, before, i);
        assert removed[i] == front[i] && front[i].name in NamesOf(front);
        assert forall j :: 0 <= j <= i ==> removed[j] == front[j];
      }
    }
  }

  // The rename map, without its history: a removed member is paired exactly when one single
  // added member has its signature and no earlier removed member does, and with that member.
  lemma {:induction false} RenameForm(removed: seq<Member>, added: seq<Member>)
    requires Distinct(removed, MemberName) && Distinct(added, MemberName)
    ensures PairsAll(removed, added, RenameMap(removed, added))
  {
    if removed != [] {
      var front, m := removed[..|removed| - 1], removed[|removed| - 1];
      assert removed == front + [m];
      RenameForm(front, added);
      RenameStep(front, m, added, RenameMap(front, added));
    }
  }

  // No added member is the target of two renames, and every rename keeps the signature text.
  lemma RenamesInjective(removed: seq<Member>, added: seq<Member>, n: string, k: string)
    requires Distinct(removed, MemberName) && Distinct(added, MemberName)
    requires n in RenameMap(removed, added) && k in RenameMap(removed, added)
    ensures RenameMap(removed, added)[n] == RenameMap(removed, added)[k] ==> n == k
    ensures exists m, a :: m in removed && a in added && m.name == n && a.name == RenameMap(removed, added)[n]
                           && SignatureText(m) == SignatureText(a)
  {
    var renamed := RenameMap(removed, added);
    RenameForm(removed, added);
    assert n in NamesOf(removed) && k in NamesOf(removed);
    var i :| 0 <= i < |removed| && removed[i].name == n;
    var j :| 0 <= j < |removed| && removed[j].name == k;
    assert Pairs(removed, added, renamed, i) && Pairs(removed, added, renamed, j);
    if renamed[n] == renamed[k] {
      SharedTwin(added, removed[i], removed[j]);
    }
    var a := Twins(added, removed[i])[0];
    TwinsHold(added, removed[i], a);
    assert removed[i] in removed;
  }

  // ---------------------------------------------------------------- accounting

  lemma {:induction false} InjectiveValues(m: map<string, string>, keys: set<string>)
    requires keys <= m.Keys
    requires forall n, k :: n in m && k in m && m[n] == m[k] ==> n == k
    ensures |set n | n in keys :: m[n]| == |keys|
  {
    if keys != {} {
      var n :| n in keys;
      InjectiveValues(m, keys - {n});
      var values, rest := (set k | k in keys :: m[k]), (set k | k in keys - {n} :: m[k]);
      assert values == rest + {m[n]};
    } else {
      assert (set n | n in keys :: m[n]) == {};
    }
  }

  function NotNamed(names: set<string>): Member -> bool {
    (m: Member) => m.name !in names
  }

  lemma LastNameNew(s: seq<Member>)
    requires s != [] && Distinct(s, MemberName)
    ensures s[|s| - 1].name !in NamesOf(s[..|s| - 1])
    ensures Distinct(s[..|s| - 1], MemberName)
    ensures NamesOf(s) == NamesOf(s[..|s| - 1]) + {s[|s| - 1].name}
  {
    var front, m := s[..|s| - 1], s[|s| - 1];
    assert s == front + [m];
    forall x | x in front ensures x.name != m.name {
      var i :| 0 <= i < |front| && front[i] == x;
      assert MemberName(s[i]) != MemberName(s[|s| - 1]);
    }
  }

  lemma OthersNamed(s: seq<Member>, names: set<string>)
    requires s != [] && Distinct(s, MemberName) && names <= NamesOf(s)
    ensures var front, name := s[..|s| - 1], s[|s| - 1].name;
      && names - {name} <= NamesOf(front)
      && Filter(front, NotNamed(names - {name})) == Filter(front, NotNamed(names))
  {
    var front, name := s[..|s| - 1], s[|s| - 1].name;
    LastNameNew(s);
    forall x | x in front ensures NotNamed(names - {name})(x) == NotNamed(names)(x) {
      assert x.name in NamesOf(front);
    }
    FilterSame(front, NotNamed(names - {name}), NotNamed(names));
  }

  lemma {:induction false} CountNamed(s: seq<Member>, names: set<string>)
    requires Distinct(s, MemberName) && names <= NamesOf(s)
    ensures |Filter(s, NotNamed(names))| == |s| - |names|
  {
    if s == [] {
      assert names == {};
    } else {
      var name := s[|s| - 1].name;
      LastNameNew(s);
      OthersNamed(s, names);
      CountNamed(s[..|s| - 1], names - {name});
      if name !in names {
        assert names - {name} == names;
      }
    }
  }

  lemma {:induction false} OneOrNone<T, U>(s: seq<T>, f: T -> seq<U>, keep: T -> bool)
    requires forall x :: x in s ==> |f(x)| == if keep(x) then 1 else 0
    ensures Collect(s, f) == Collect(Filter(s, keep), f)
    ensures |Collect(s, f)| == |Filter(s, keep)|
  {
    if s != [] {
      var front, x := s[..|s| - 1], s[|s| - 1];
      OneOrNone(front, f, keep);
      assert x in s;
      if keep(x) {
        CollectSnoc(Filter(front, keep), x, f);
      } else {
        assert f(x) == [];
        assert Filter(front, keep) + [] == Filter(front, keep);
      }
    }
  }

  lemma TargetsAreAdded(removed: seq<Member>, added: seq<Member>)
    requires Distinct(removed, MemberName) && Distinct(added, MemberName)
    ensures RenameMap(removed, added).Values <= NamesOf(added)
    ensures |RenameMap(removed, added).Values| == |RenameMap(removed, added)|
  {
    var renamed := RenameMap(removed, added);
    forall n | n in renamed ensures renamed[n] in NamesOf(added) {
      RenamesInjective(removed, added, n, n);
    }
    forall n, k | n in renamed && k in renamed && renamed[n] == renamed[k] ensures n == k {
      RenamesInjective(removed, added, n, k);
    }
    InjectiveValues(renamed, renamed.Keys);
    assert renamed.Values == set n | n in renamed.Keys :: renamed[n];
    assert |renamed| == |renamed.Keys|;
  }

  // Every member gone from the base is reported once, as removed or as renamed; every member
  // new in the head is a rename's target or reported once as added; nothing is counted twice.
  lemma MemberAccounting(base: Symbol, head: Symbol)
    requires Distinct(base.members, MemberName) && Distinct(head.members, MemberName)
    ensures var removed, added := OnlyIn(base.members, head.members), OnlyIn(head.members, base.members);
      var renamed := RenameMap(removed, added);
      var gone, extra := Collect(removed, GoneMember(base, head, renamed)), Collect(added, NewMember(head, renamed));
      && |gone| == |removed|
      && (forall i :: 0 <= i < |removed| ==>
            && gone[i].member == Some(removed[i].name)
            && gone[i].classification == (if removed[i].name in renamed then Renamed else RemovedMember)
            && (removed[i].name in renamed ==> gone[i].now == Some(renamed[removed[i].name])))
      && extra == Collect(Filter(added, NotNamed(renamed.Values)), NewMember(head, renamed))
      && |extra| == |added| - |renamed|
      && |gone| + |extra| == |removed| + |added| - |renamed|
  {
    var removed, added := OnlyIn(base.members, head.members), OnlyIn(head.members, base.members);
    var renamed := RenameMap(removed, added);
    FilterDistinct(base.members, (m: Member) => Lookup(head.members, MemberName, m.name).None?, MemberName);
    FilterDistinct(head.members, (m: Member) => Lookup(base.members, MemberName, m.name).None?, MemberName);
    OneEach(removed, GoneMember(base, head, renamed));
    OneOrNone(added, NewMember(head, renamed), NotNamed(renamed.Values));
    TargetsAreAdded(removed, added);
    CountNamed(added, renamed.Values);
  }

  // ---------------------------------------------------------------- what a signature's text tells

  // The parts as a split at commas returns them: every part but the first behind a blank.
  function Spaced(parts: seq<string>): seq<string>
    requires parts != []
  {
    [parts[0]] + Map(parts[1..], (p: string) => " " + p)
  }

  ghost predicate Plain(parts: seq<string>, c: char) {
    forall p :: p in parts ==> c !in p
  }

  lemma {:induction false} SplitCommas(parts: seq<string>)
    requires parts != [] && Plain(parts, ',')
    ensures TextOps.Split(TextOps.Join(parts, ", "), ',') == Spaced(parts)
  {
    var front, last := parts[..|parts| - 1], parts[|parts| - 1];
    assert last in parts && parts == front + [last];
    if |parts| == 1 {
      SplitSingle(last);
      assert parts == [last];
    } else {
      SplitCommas(front);
      SplitCommasStep(front, last);
    }
  }

  lemma SplitSingle(p: string)
    requires ',' !in p
    ensures TextOps.Split(TextOps.Join([p], ", "), ',') == Spaced([p])
  {
    TextOps.SplitPlain("", p, ',');
    assert "" + p == p && [p][1..] == [];
  }

  lemma SplitCommasStep(front: seq<string>, last: string)
    requires front != [] && ',' !in last
    requires TextOps.Split(TextOps.Join(front, ", "), ',') == Spaced(front)
    ensures TextOps.Split(TextOps.Join(front + [last], ", "), ',') == Spaced(front + [last])
  {
    var head := TextOps.Join(front, ", ");
    JoinSnoc(front, last);
    BlankedComma(head, last);
    BlankFree(last);
    TextOps.SplitOneMore(head, " " + last, ',');
    SpacedSnoc(front, last);
  }

  lemma BlankFree(last: string)
    requires ',' !in last
    ensures ',' !in " " + last
  {
  }

  lemma JoinSnoc(front: seq<string>, last: string)
    requires front != []
    ensures TextOps.Join(front + [last], ", ") == TextOps.Join(front, ", ") + ", " + last
  {
    assert (front + [last])[..|front|] == front;
  }

  lemma BlankedComma(head: string, last: string)
    ensures head + ", " + last == head + [','] + (" " + last)
  {
  }

  lemma SpacedSnoc(front: seq<string>, last: string)
    requires front != []
    ensures Spaced(front + [last]) == Spaced(front) + [" " + last]
  {
    assert (front + [last])[1..] == front[1..] + [last];
    MapSnoc(front[1..], last, (p: string) => " " + p);
  }

  lemma SpacedApart(a: seq<string>, b: seq<string>)
    requires a != [] && b != [] && Spaced(a) == Spaced(b)
    ensures a == b
  {
    assert |Spaced(a)| == |a| && |Spaced(b)| == |b|;
    forall i | 0 <= i < |a| ensures a[i] == b[i] {
      if i > 0 {
        assert Spaced(a)[i] == " " + a[i] && Spaced(b)[i] == " " + b[i];
        assert a[i] == (" " + a[i])[1..] && b[i] == (" " + b[i])[1..];
      } else {
        assert Spaced(a)[0] == a[0] && Spaced(b)[0] == b[0];
      }
    }
  }

  function ParamTexts(m: Member): seq<string> {
    Map(m.params, ParamText)
  }

  function ResultText(m: Member): string {
    match m.result case Some(a) => a.text case None => "None"
  }

  ghost predicate Readable(m: Member) {
    && Plain(ParamTexts(m), ',') && Plain(ParamTexts(m), ')')
    && forall p :: p in ParamTexts(m) ==> p != ""
  }

  lemma {:induction false} JoinPlain(parts: seq<string>, sep: string, c: char)
    requires Plain(parts, c) && c !in sep
    ensures c !in TextOps.Join(parts, sep)
  {
    if |parts| > 1 {
      assert parts[|parts| - 1] in parts;
      JoinPlain(parts[..|parts| - 1], sep, c);
    } else if |parts| == 1 {
      assert parts[0] in parts;
    }
  }

  // What stands before and after the parenthesis that closes the parameters.
  lemma SignatureParts(m: Member)
    requires Readable(m)
    ensures TextOps.Partition(SignatureText(m), ')')
         == ("(" + TextOps.Join(ParamTexts(m), ", "), true, " -> " + ResultText(m))
  {
    var head, tail := "(" + TextOps.Join(ParamTexts(m), ", "), " -> " + ResultText(m);
    JoinPlain(ParamTexts(m), ", ", ')');
    assert ')' !in head;
    TextOps.PartitionAt(head, tail, ')');
    assert SignatureText(m) == head + [')'] + tail;
  }

  // Two members whose parameters hold no comma and no closing parenthesis have one signature text
  // exactly when their parameters' texts and their results' texts agree.
  lemma SignatureTextsApart(m: Member, n: Member)
    requires Readable(m) && Readable(n)
    ensures SignatureText(m) == SignatureText(n) <==>
              ParamTexts(m) == ParamTexts(n) && ResultText(m) == ResultText(n)
  {
    SignatureParts(m);
    SignatureParts(n);
    if SignatureText(m) == SignatureText(n) {
      assert (" -> " + ResultText(m))[4..] == (" -> " + ResultText(n))[4..];
      var a, b := TextOps.Join(ParamTexts(m), ", "), TextOps.Join(ParamTexts(n), ", ");
      assert ("(" + a)[1..] == ("(" + b)[1..];
      JoinsApart(ParamTexts(m), ParamTexts(n));
    }
  }

  lemma JoinsApart(a: seq<string>, b: seq<string>)
    requires Plain(a, ',') && Plain(b, ',') && (forall p :: p in a || p in b ==> p != "")
    requires TextOps.Join(a, ", ") == TextOps.Join(b, ", ")
    ensures a == b
  {
    JoinEmpty(a);
    JoinEmpty(b);
    if a != [] && b != [] {
      SplitCommas(a);
      SplitCommas(b);
      SpacedApart(a, b);
    }
  }

  lemma JoinEmpty(parts: seq<string>)
    requires forall p :: p in parts ==> p != ""
    ensures TextOps.Join(parts, ", ") == "" <==> parts == []
  {
    if |parts| == 1 {
      assert parts[0] in parts;
    }
  }
}
