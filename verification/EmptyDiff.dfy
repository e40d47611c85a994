// What it takes for the differ to report nothing at all, and what nothing reported proves.
module EmptyDiff {
  import opened Common
  import opened Sorting
  import opened ContractSurface
  import opened CallBinding
  import opened ConstructorSoundness
  import opened SignatureSoundness
  import opened SurfaceSoundness

  // ---------------------------------------------------------------- nothing reported

  ghost predicate NothingOf<T>(s: seq<T>, f: T -> seq<Change>) {
    forall x :: x in s ==> f(x) == []
  }

  lemma EmptyParams(site: Site, was: Member, now: Member)
    requires ParamChanges(site, was, now) == []
    ensures NothingOf(was.params, RemovedParam(site, now)) && NothingOf(now.params, AddedParam(site, was))
    ensures NothingOf(now.params, KeptParam(site, was, now))
    ensures DirectionOf(was.result, now.result) == Equal
  {
    CollectEmpty(was.params, RemovedParam(site, now));
    CollectEmpty(now.params, AddedParam(site, was));
    CollectEmpty(now.params, KeptParam(site, was, now));
  }

  // Whether a parameter is reported does not depend on whose contract it is.
  lemma NothingRemoved(site: Site, other: Site, now: Member, p: Param)
    requires RemovedParam(site, now)(p) == []
    ensures RemovedParam(other, now)(p) == []
  {
  }

  lemma NothingAdded(site: Site, other: Site, was: Member, p: Param)
    requires AddedParam(site, was)(p) == []
    ensures AddedParam(other, was)(p) == []
  {
  }

  lemma NothingKept(site: Site, other: Site, was: Member, now: Member, p: Param)
    requires KeptParam(site, was, now)(p) == []
    ensures KeptParam(other, was, now)(p) == []
  {
  }

  lemma OwnerIndependent(site: Site, was: Member, now: Member)
    requires ParamChanges(site, was, now) == []
    ensures QuietParams(site.(owner := OwnerProtocol), was, now)
  {
    var other := site.(owner := OwnerProtocol);
    EmptyParams(site, was, now);
    forall p | p in was.params ensures RemovedParam(other, now)(p) == [] {
      NothingRemoved(site, other, now, p);
    }
    forall p | p in now.params ensures AddedParam(other, was)(p) == [] && KeptParam(other, was, now)(p) == [] {
      assert AddedParam(site, was)(p) == [] && KeptParam(site, was, now)(p) == [];
      NothingAdded(site, other, was, p);
      NothingKept(site, other, was, now, p);
    }
    CollectEmpty(was.params, RemovedParam(other, now));
    CollectEmpty(now.params, AddedParam(other, was));
    CollectEmpty(now.params, KeptParam(other, was, now));
  }

  ghost predicate SameSignature(was: Member, now: Member) {
    && SameShape(was.params, now.params)
    && UnionOf(was.result) == UnionOf(now.result)
    && forall p, q | p in was.params && q in now.params && p.name == q.name ::
         UnionOf(p.annotation) == UnionOf(q.annotation)
  }

  lemma EmptyAnnotation(site: Site, was: Member, now: Member, p: Param, q: Param)
    requires WellFormed(was.params) && NothingOf(now.params, KeptParam(site, was, now))
    requires p in was.params && q in now.params && p.name == q.name
    ensures UnionOf(p.annotation) == UnionOf(q.annotation)
  {
    LookupDistinct(was.params, ParamName, p);
    assert KeptParam(site, was, now)(q) == [];
  }

  lemma EmptySignature(site: Site, was: Member, now: Member)
    requires WellFormed(was.params) && WellFormed(now.params)
    requires ParamChanges(site, was, now) == []
    ensures SameSignature(was, now)
  {
    assert SameShape(was.params, now.params) by {
      OwnerIndependent(site, was, now);
      QuietProtocolShape(site.(owner := OwnerProtocol), was, now);
    }
    EmptyParams(site, was, now);
    forall p, q | p in was.params && q in now.params && p.name == q.name
      ensures UnionOf(p.annotation) == UnionOf(q.annotation)
    {
      EmptyAnnotation(site, was, now, p, q);
    }
  }

  ghost predicate SameMembers(base: Symbol, head: Symbol) {
    && (forall m :: m in base.members ==> exists n :: n in head.members && n.name == m.name)
    && (forall n :: n in head.members ==> exists m :: m in base.members && n.name == m.name)
    && (forall m, n | m in base.members && n in head.members && n.name == m.name :: SameMember(m, n))
  }

  ghost predicate SameMember(m: Member, n: Member) {
    && n.kind == m.kind
    && UnionOf(m.result) == UnionOf(n.result)
    && (m.kind == Attribute || SameSignature(m, n))
  }

  lemma EmptyRemoved(base: Symbol, head: Symbol)
    requires MemberChanges(base, head) == []
    ensures OnlyIn(base.members, head.members) == [] && OnlyIn(head.members, base.members) == []
  {
    var removed, added := OnlyIn(base.members, head.members), OnlyIn(head.members, base.members);
    var renamed := RenameMap(removed, added);
    OneEach(removed, GoneMember(base, head, renamed));
    assert |removed| == 0 && renamed == map[];
    OneEach(added, NewMember(head, map[]));
  }

  lemma NoneOnlyIn(s: seq<Member>, other: seq<Member>, m: Member)
    requires OnlyIn(s, other) == [] && m in s
    ensures exists n :: n in other && n.name == m.name
  {
    FilterMember(s, (x: Member) => Lookup(other, MemberName, x.name).None?, m);
    LookupFinds(other, MemberName, m.name);
  }

  lemma EmptyMembers(base: Symbol, head: Symbol)
    requires WellFormedSymbol(base) && WellFormedSymbol(head)
    requires MemberChanges(base, head) == []
    ensures SameMembers(base, head)
  {
    EmptyRemoved(base, head);
    CollectEmpty(head.members, KeptMember(base, head));
    forall m | m in base.members ensures exists n :: n in head.members && n.name == m.name {
      NoneOnlyIn(base.members, head.members, m);
    }
    forall n | n in head.members ensures exists m :: m in base.members && n.name == m.name {
      NoneOnlyIn(head.members, base.members, n);
    }
    forall m, n | m in base.members && n in head.members && n.name == m.name ensures SameMember(m, n) {
      assert KeptMember(base, head)(n) == [];
      EmptyMember(base, head, m, n);
    }
  }

  lemma EmptyMember(base: Symbol, head: Symbol, m: Member, n: Member)
    requires WellFormedSymbol(base) && WellFormedSymbol(head)
    requires m in base.members && n in head.members && n.name == m.name
    requires KeptMember(base, head)(n) == []
    ensures SameMember(m, n)
  {
    LookupDistinct(base.members, MemberName, m);
    if m.kind != Attribute {
      EmptySignature(Site(head, Some(n.name), n.line, OwnerOf(head)), m, n);
    }
  }

  // A field's type and default, and its slot if it had one; see EmptyFieldMarksIff for slots.
  ghost predicate SameField(base: Symbol, head: Symbol, g: Field, f: Field) {
    && UnionOf(Some(g.annotation)) == UnionOf(Some(f.annotation))
    && TextOfDefault(g.default) == TextOfDefault(f.default)
    && !Reordered(base, head, f.name)
  }

  ghost predicate SameFields(base: Symbol, head: Symbol) {
    && (forall g :: g in base.fields ==> exists f :: f in head.fields && f.name == g.name)
    && (forall f :: f in head.fields ==>
          var g := Lookup(base.fields, FieldName, f.name);
          g.Some? && SameField(base, head, g.value, f))
  }

  lemma EmptyField(base: Symbol, head: Symbol, f: Field)
    requires AddedField(base, head)(f) == [] && KeptField(base, head)(f) == []
    ensures var g := Lookup(base.fields, FieldName, f.name); g.Some? && SameField(base, head, g.value, f)
  {
  }

  lemma EmptyFields(base: Symbol, head: Symbol)
    requires FieldChanges(base, head) == []
    ensures SameFields(base, head)
  {
    CollectEmpty(base.fields, RemovedField(base, head));
    CollectEmpty(head.fields, AddedField(base, head));
    CollectEmpty(head.fields, KeptField(base, head));
    forall g | g in base.fields ensures exists f :: f in head.fields && f.name == g.name {
      assert RemovedField(base, head)(g) == [];
      LookupFinds(head.fields, FieldName, g.name);
    }
    forall f | f in head.fields
      ensures var g := Lookup(base.fields, FieldName, f.name); g.Some? && SameField(base, head, g.value, f)
    {
      EmptyField(base, head, f);
    }
  }

  // A field keeps its place among the positional ones, or stays keyword-only.
  ghost predicate SameMarks(base: Symbol, head: Symbol) {
    forall g, f :: g in base.fields && f in head.fields && g.name == f.name ==> g.keywordOnly == f.keywordOnly
  }

  lemma MarksOfNames(base: Symbol, head: Symbol, g: Field, f: Field)
    requires Distinct(base.fields, FieldName) && Distinct(head.fields, FieldName)
    requires PositionalFieldNames(base.fields) == PositionalFieldNames(head.fields)
    requires g in base.fields && f in head.fields && g.name == f.name
    ensures g.keywordOnly == f.keywordOnly
  {
    PositionalFieldHolds(base.fields, g.name);
    PositionalFieldHolds(head.fields, f.name);
    if g.keywordOnly {
      KeywordOnlyHasNoPosition(base.fields, g);
    }
    if f.keywordOnly {
      KeywordOnlyHasNoPosition(head.fields, f);
    }
  }

  lemma NamesOfMarks(base: Symbol, head: Symbol)
    requires SameFields(base, head) && SameMarks(base, head)
    ensures forall x :: x in PositionalFieldNames(head.fields) ==> x in PositionalFieldNames(base.fields)
  {
    forall x | x in PositionalFieldNames(head.fields) ensures x in PositionalFieldNames(base.fields) {
      PositionalFieldHolds(head.fields, x);
      var f :| f in head.fields && !f.keywordOnly && f.name == x;
      LookupFinds(base.fields, FieldName, x);
      PositionalFieldHolds(base.fields, x);
    }
  }

  // An empty field diff forces equal keyword-only marks exactly when both classes have equally
  // many positional fields.
  lemma EmptyFieldMarksIff(base: Symbol, head: Symbol)
    requires Distinct(base.fields, FieldName) && Distinct(head.fields, FieldName)
    requires FieldChanges(base, head) == []
    ensures SameMarks(base, head) <==> |PositionalFieldNames(base.fields)| == |PositionalFieldNames(head.fields)|
  {
    var a, b := PositionalFieldNames(base.fields), PositionalFieldNames(head.fields);
    ConstructorKept(base, head);
    EmptyFields(base, head);
    if SameMarks(base, head) {
      NamesOfMarks(base, head);
      ConstructorWellFormed(head.fields);
      ConstructorNames(head.fields);
      NoSlotTwice(Constructor(head.fields));
      PrefixOfSameNames(a, b);
    }
    if |a| == |b| {
      assert a == b;
      forall g, f | g in base.fields && f in head.fields && g.name == f.name ensures g.keywordOnly == f.keywordOnly {
        MarksOfNames(base, head, g, f);
      }
    }
  }

  // A keyword-only field that becomes positional is not reported.
  const MARKED := Field("a", Annotation("int", {"int"}), None, true, 2)
  const UNMARKED := MARKED.(keywordOnly := false)
  const KEYWORD_CLASS := Symbol("m", "C", DataClass, "m.py", 1, [], false, false, [], [MARKED], [], None, None)
  const POSITIONAL_CLASS := KEYWORD_CLASS.(fields := [UNMARKED])

  lemma LostMarkIsNoChange()
    ensures SymbolChanges(KEYWORD_CLASS, POSITIONAL_CLASS) == []
    ensures !SameMarks(KEYWORD_CLASS, POSITIONAL_CLASS)
  {
    LostMarkPlaces();
    LostMarkFields();
    assert MARKED in KEYWORD_CLASS.fields && UNMARKED in POSITIONAL_CLASS.fields;
    assert MemberChanges(KEYWORD_CLASS, POSITIONAL_CLASS) == [] && EnumChanges(KEYWORD_CLASS, POSITIONAL_CLASS) == [];
  }

  lemma LostMarkPlaces()
    ensures PositionalFieldNames([MARKED]) == []
    ensures Lookup([MARKED], FieldName, "a") == Some(MARKED) && Lookup([UNMARKED], FieldName, "a") == Some(UNMARKED)
  {
    FilterNone([MARKED], (f: Field) => !f.keywordOnly);
  }

  lemma LostMarkFields()
    ensures FieldChanges(KEYWORD_CLASS, POSITIONAL_CLASS) == []
  {
    LostMarkPlaces();
    CollectEmpty([MARKED], RemovedField(KEYWORD_CLASS, POSITIONAL_CLASS));
    CollectEmpty([UNMARKED], AddedField(KEYWORD_CLASS, POSITIONAL_CLASS));
    CollectEmpty([UNMARKED], KeptField(KEYWORD_CLASS, POSITIONAL_CLASS));
  }

  // The two name-to-value maps of an enum.
  ghost predicate SameEnums(base: Symbol, head: Symbol) {
    forall name ::
      var b, h := Lookup(base.enumMembers, EnumName, name), Lookup(head.enumMembers, EnumName, name);
      b.Some? == h.Some? && (b.Some? ==> b.value.value == h.value.value)
  }

  lemma EmptyEnums(base: Symbol, head: Symbol)
    requires EnumChanges(base, head) == []
    ensures SameEnums(base, head)
  {
    CollectEmpty(base.enumMembers, RemovedEnum(base, head));
    CollectEmpty(head.enumMembers, KeptEnum(base, head));
    forall b | b in base.enumMembers ensures Lookup(head.enumMembers, EnumName, b.name).Some? {
      assert RemovedEnum(base, head)(b) == [];
    }
    forall name
      ensures var b, h := Lookup(base.enumMembers, EnumName, name), Lookup(head.enumMembers, EnumName, name);
        b.Some? == h.Some? && (b.Some? ==> b.value.value == h.value.value)
    {
      LookupFinds(base.enumMembers, EnumName, name);
      LookupFinds(head.enumMembers, EnumName, name);
      var h := Lookup(head.enumMembers, EnumName, name);
      if h.Some? {
        assert KeptEnum(base, head)(h.value) == [];
      }
    }
  }

  ghost predicate SameSymbol(base: Symbol, head: Symbol) {
    && base.kind == head.kind
    && (base.kind == Alias ==> UnionOf(base.value) == UnionOf(head.value))
    && (base.kind == FunctionSymbol ==>
          base.signature.Some? && head.signature.Some? && SameSignature(base.signature.value, head.signature.value))
    && (base.kind != Alias && base.kind != FunctionSymbol ==>
          && base.frozen == head.frozen && (head.deprecated ==> base.deprecated)
          && (base.kind == ProtocolClass ==> Elements(base.bases) == Elements(head.bases))
          && SameMembers(base, head) && SameFields(base, head) && SameEnums(base, head))
  }

  lemma EmptySymbol(base: Symbol, head: Symbol)
    requires WellFormedSymbol(base) && WellFormedSymbol(head)
    requires SymbolChanges(base, head) == []
    ensures SameSymbol(base, head)
  {
    if head.kind == Alias && base.kind == Alias {
    } else if head.kind == FunctionSymbol && base.signature.Some? && head.signature.Some? {
      EmptySignature(Site(head, None, head.signature.value.line, OwnerCallable),
                     base.signature.value, head.signature.value);
    } else {
      if head.kind == ProtocolClass {
        QuietBases(base, head);
      }
      EmptyMembers(base, head);
      EmptyFields(base, head);
      EmptyEnums(base, head);
    }
  }

  // An empty diff means the same shape: the same symbols, of the same kinds, with the same
  // members, signatures, defaults, fields and enum values.
  lemma EmptyDiffSameShape(base: Surface, head: Surface)
    requires WellFormedSurface(base) && WellFormedSurface(head)
    requires SurfaceChanges(base, head) == []
    ensures forall b :: b in base.symbols ==>
              exists h :: h in head.symbols && h.Key() == b.Key() && SameSymbol(b, h)
    ensures forall h :: h in head.symbols ==> exists b :: b in base.symbols && h.Key() == b.Key()
  {
    CollectEmpty(base.symbols, RemovedSymbol(head));
    CollectEmpty(head.symbols, HeadSymbol(base));
    forall b | b in base.symbols
      ensures exists h :: h in head.symbols && h.Key() == b.Key() && SameSymbol(b, h)
    {
      assert RemovedSymbol(head)(b) == [];
      LookupFinds(head.symbols, SymbolName, b.Key());
      var h := Lookup(head.symbols, SymbolName, b.Key()).value;
      LookupDistinct(base.symbols, SymbolName, b);
      assert HeadSymbol(base)(h) == [];
      EmptySymbol(b, h);
    }
    forall h | h in head.symbols ensures exists b :: b in base.symbols && h.Key() == b.Key() {
      assert HeadSymbol(base)(h) == [];
      LookupFinds(base.symbols, SymbolName, h.Key());
    }
  }

  // ---------------------------------------------------------------- a tree against itself

  lemma SelfSignature(site: Site, m: Member)
    requires WellFormed(m.params)
    ensures ParamChanges(site, m, m) == []
  {
    forall p | p in m.params
      ensures RemovedParam(site, m)(p) == [] && AddedParam(site, m)(p) == [] && KeptParam(site, m, m)(p) == []
    {
      LookupDistinct(m.params, ParamName, p);
    }
    CollectEmpty(m.params, RemovedParam(site, m));
    CollectEmpty(m.params, AddedParam(site, m));
    CollectEmpty(m.params, KeptParam(site, m, m));
  }

  lemma SelfMembers(s: Symbol)
    requires WellFormedSymbol(s)
    ensures MemberChanges(s, s) == []
  {
    forall m | m in s.members ensures KeptMember(s, s)(m) == [] && Lookup(s.members, MemberName, m.name).Some? {
      LookupDistinct(s.members, MemberName, m);
      SelfSignature(Site(s, Some(m.name), m.line, OwnerOf(s)), m);
    }
    CollectEmpty(s.members, KeptMember(s, s));
    FilterNone(s.members, (m: Member) => Lookup(s.members, MemberName, m.name).None?);
  }

  ghost predicate FieldsAgree(f: Field, g: Field) {
    UnionOf(Some(f.annotation)) == UnionOf(Some(g.annotation)) && TextOfDefault(f.default) == TextOfDefault(g.default)
  }

  // A class body may declare a field or an enum member twice; the declarations have to agree.
  ghost predicate RepeatsAgree(s: Symbol) {
    && (forall f, g | f in s.fields && g in s.fields && f.name == g.name :: FieldsAgree(f, g))
    && (forall d, e | d in s.enumMembers && e in s.enumMembers && d.name == e.name :: d.value == e.value)
  }

  lemma SelfField(s: Symbol, f: Field)
    requires f in s.fields
    ensures RemovedField(s, s)(f) == [] && AddedField(s, s)(f) == []
    ensures Lookup(s.fields, FieldName, f.name).Some?
    ensures var g := Lookup(s.fields, FieldName, f.name).value;
      g in s.fields && g.name == f.name && (KeptField(s, s)(f) == [] <==> FieldsAgree(g, f))
  {
    LookupFinds(s.fields, FieldName, f.name);
  }

  lemma SelfFields(s: Symbol)
    ensures FieldChanges(s, s) == [] <==>
      forall f, g | f in s.fields && g in s.fields && f.name == g.name :: FieldsAgree(f, g)
  {
    forall f | f in s.fields ensures RemovedField(s, s)(f) == [] && AddedField(s, s)(f) == [] {
      SelfField(s, f);
    }
    CollectEmpty(s.fields, RemovedField(s, s));
    CollectEmpty(s.fields, AddedField(s, s));
    CollectEmpty(s.fields, KeptField(s, s));
    if FieldChanges(s, s) == [] {
      forall f, g | f in s.fields && g in s.fields && f.name == g.name ensures FieldsAgree(f, g) {
        SelfField(s, f);
        SelfField(s, g);
      }
    }
    if forall f, g | f in s.fields && g in s.fields && f.name == g.name :: FieldsAgree(f, g) {
      forall f | f in s.fields ensures KeptField(s, s)(f) == [] {
        SelfField(s, f);
      }
    }
  }

  lemma SelfEnums(s: Symbol)
    ensures EnumChanges(s, s) == [] <==>
      forall d, e | d in s.enumMembers && e in s.enumMembers && d.name == e.name :: d.value == e.value
  {
    forall e | e in s.enumMembers
      ensures Lookup(s.enumMembers, EnumName, e.name).Some?
      ensures var d := Lookup(s.enumMembers, EnumName, e.name).value;
        d in s.enumMembers && d.name == e.name && (KeptEnum(s, s)(e) == [] <==> d.value == e.value)
      ensures RemovedEnum(s, s)(e) == []
    {
      LookupFinds(s.enumMembers, EnumName, e.name);
    }
    CollectEmpty(s.enumMembers, RemovedEnum(s, s));
    CollectEmpty(s.enumMembers, KeptEnum(s, s));
  }

  lemma SelfBases(s: Symbol)
    ensures BaseChanges(s, s) == []
  {
    FilterNone(s.bases, (x: string) => x !in s.bases);
    assert SortedMinus(s.bases, s.bases) == [];
  }

  // Whether a symbol's class body is compared at all.
  predicate ComparesBody(s: Symbol) {
    s.kind != Alias && s.kind != FunctionSymbol
  }

  lemma SelfSymbol(s: Symbol)
    requires WellFormedSymbol(s)
    ensures SymbolChanges(s, s) == [] <==> (ComparesBody(s) ==> RepeatsAgree(s))
  {
    if s.kind == FunctionSymbol {
      SelfSignature(Site(s, None, s.signature.value.line, OwnerCallable), s.signature.value);
    } else if s.kind != Alias {
      SelfMembers(s);
      SelfBases(s);
      SelfFields(s);
      SelfEnums(s);
    }
  }

  // A tree compared with itself shows no change exactly when no class body repeats a field or
  // an enum member with a different annotation, default or value.
  lemma SelfDiffEmptyIff(surface: Surface)
    requires WellFormedSurface(surface)
    ensures SurfaceChanges(surface, surface) == [] <==>
              forall s :: s in surface.symbols && ComparesBody(s) ==> RepeatsAgree(s)
  {
    CollectEmpty(surface.symbols, RemovedSymbol(surface));
    CollectEmpty(surface.symbols, HeadSymbol(surface));
    forall s | s in surface.symbols
      ensures RemovedSymbol(surface)(s) == []
      ensures HeadSymbol(surface)(s) == [] <==> (ComparesBody(s) ==> RepeatsAgree(s))
    {
      LookupDistinct(surface.symbols, SymbolName, s);
      SelfSymbol(s);
    }
  }

  // A dataclass that annotates x twice differs from itself.
  lemma RepeatedFieldDiffers()
    ensures var int_, str_ := Annotation("int", {"int"}), Annotation("str", {"str"});
      var twice := Symbol("m", "C", DataClass, "m.py", 1, [], false, false, [],
                          [Field("x", int_, None, false, 2), Field("x", str_, None, false, 3)], [], None, None);
      WellFormedSurface(Surface([twice])) && SurfaceChanges(Surface([twice]), Surface([twice])) != []
  {
    var int_, str_ := Annotation("int", {"int"}), Annotation("str", {"str"});
    var twice := Symbol("m", "C", DataClass, "m.py", 1, [], false, false, [],
                        [Field("x", int_, None, false, 2), Field("x", str_, None, false, 3)], [], None, None);
    var f, g := twice.fields[0], twice.fields[1];
    assert "int" in UnionOf(Some(f.annotation)) && "int" !in UnionOf(Some(g.annotation));
    assert f in twice.fields && g in twice.fields && !RepeatsAgree(twice);
    assert twice in Surface([twice]).symbols;
    SelfDiffEmptyIff(Surface([twice]));
  }
}
