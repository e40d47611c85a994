// What a whole diff with nothing breaking promises the users of every symbol.
module SurfaceSoundness {
  import opened Common
  import opened Sorting
  import opened ContractSurface
  import opened CallBinding
  import opened SignatureSoundness
  import opened ConstructorSoundness

  // What reading source text gives every symbol: a dict of members, Python signatures, and a
  // signature of its own exactly on a function.
  ghost predicate WellFormedSymbol(s: Symbol) {
    && Distinct(s.members, MemberName)
    && (forall m :: m in s.members ==> WellFormed(m.params))
    && (s.signature.Some? <==> s.kind == FunctionSymbol)
    && (s.signature.Some? ==> WellFormed(s.signature.value.params))
  }

  ghost predicate WellFormedSurface(surface: Surface) {
    && Distinct(surface.symbols, SymbolName)
    && forall s :: s in surface.symbols ==> WellFormedSymbol(s)
  }

  // Callers of a method keep their calls exactly when nothing can be captured, may pass what
  // they passed and get what they got; a protocol's method keeps its calls outright, and so do
  // its implementers.
  ghost predicate SignatureServes(was: Member, now: Member, owner: Owner) {
    && (CallsPreserved(was.params, now.params) <==> NoCapture(was.params, now.params))
    && ParamsWiden(was.params, now.params) && ResultKept(was, now, owner)
    && (owner == OwnerProtocol ==>
          CallsPreserved(was.params, now.params) && CallsPreserved(now.params, was.params))
  }

  ghost predicate MemberServes(base: Symbol, head: Symbol, m: Member) {
    exists n :: n in head.members && n.name == m.name && n.kind == m.kind
                && if m.kind == Attribute then ResultKept(m, n, OwnerOf(head)) else SignatureServes(m, n, OwnerOf(head))
  }

  // What calling a plain class binds: the parameters of its own __init__, none without one.
  function Init(s: Symbol): seq<Param> {
    match Lookup(s.members, MemberName, "__init__")
    case Some(m) => if m.kind == Attribute then [] else m.params
    case None => []
  }

  // No added parameter has to be given.
  ghost predicate AddsOptional(was: seq<Param>, now: seq<Param>) {
    forall q :: q in now && NewTo(was, q) ==> !MustBind(q)
  }

  // A plain class keeps its constructor calls exactly when nothing can be captured and nothing
  // added has to be given.
  ghost predicate InitServes(base: Symbol, head: Symbol) {
    CallsPreserved(Init(base), Init(head)) <==>
      NoCapture(Init(base), Init(head)) && AddsOptional(Init(base), Init(head))
  }

  // Each field the class had still has its annotation.
  ghost predicate FieldTypesKept(base: Symbol, head: Symbol) {
    forall g, f :: g in base.fields && f in head.fields && f.name == g.name ==>
      UnionOf(Some(f.annotation)) == UnionOf(Some(g.annotation))
  }

  // A protocol asks its implementers for no member and no base it did not ask for.
  ghost predicate AsksNoMore(base: Symbol, head: Symbol) {
    && (forall n :: n in head.members ==> exists m :: m in base.members && m.name == n.name)
    && Elements(base.bases) == Elements(head.bases)
  }

  ghost predicate ClassServes(base: Symbol, head: Symbol) {
    && (forall m :: m in base.members ==> MemberServes(base, head, m))
    && (base.kind == ProtocolClass ==> AsksNoMore(base, head))
    && (CallsPreserved(Generated(base), Generated(head)) <==> PlacesKept(base, head))
    && (Distinct(base.fields, FieldName) && Distinct(head.fields, FieldName) ==>
          CallsPreserved(Generated(base), Generated(head)) && FieldTypesKept(base, head))
    && (base.kind == PlainClass ==> InitServes(base, head))
    && (forall e :: e in base.enumMembers ==> EnumServes(base, head, e.name))
    && (head.frozen ==> base.frozen)
  }

  // The enum member still exists and still has its value.
  ghost predicate EnumServes(base: Symbol, head: Symbol, name: string) {
    && Lookup(base.enumMembers, EnumName, name).Some?
    && Lookup(head.enumMembers, EnumName, name).Some?
    && Lookup(head.enumMembers, EnumName, name).value.value == Lookup(base.enumMembers, EnumName, name).value.value
  }

  ghost predicate SymbolServes(base: Symbol, head: Symbol) {
    && head.kind == base.kind
    && (base.kind == Alias ==> DirectionOf(base.value, head.value) == Equal)
    && (base.kind == FunctionSymbol ==>
          head.signature.Some? && base.signature.Some?
          && SignatureServes(base.signature.value, head.signature.value, OwnerCallable))
    && (base.kind != Alias && base.kind != FunctionSymbol ==> ClassServes(base, head))
  }

  // Every public symbol is still there and still serves its users.
  ghost predicate UsersServed(base: Surface, head: Surface) {
    forall b :: b in base.symbols ==> exists h :: h in head.symbols && h.Key() == b.Key() && SymbolServes(b, h)
  }

  lemma QuietSignatureServes(site: Site, was: Member, now: Member)
    requires WellFormed(was.params) && WellFormed(now.params) && Quiet(ParamChanges(site, was, now))
    ensures SignatureServes(was, now, site.owner)
  {
    CallerSoundness(site, was, now);
    AnnotationSoundness(site, was, now);
    if site.owner == OwnerProtocol {
      ImplementerSoundness(site, was, now);
    }
  }

  // ---------------------------------------------------------------- members

  ghost predicate QuietMembers(base: Symbol, head: Symbol) {
    var removed, added := OnlyIn(base.members, head.members), OnlyIn(head.members, base.members);
    && Quiet(Collect(removed, GoneMember(base, head, RenameMap(removed, added))))
    && Quiet(Collect(added, NewMember(head, RenameMap(removed, added))))
    && Quiet(Collect(head.members, KeptMember(base, head)))
  }

  lemma QuietMembersSplit(base: Symbol, head: Symbol)
    requires Quiet(MemberChanges(base, head))
    ensures QuietMembers(base, head)
  {
    var removed, added := OnlyIn(base.members, head.members), OnlyIn(head.members, base.members);
    var renamed := RenameMap(removed, added);
    var a, b := Collect(removed, GoneMember(base, head, renamed)), Collect(added, NewMember(head, renamed));
    QuietConcat(a + b, Collect(head.members, KeptMember(base, head)));
    QuietConcat(a, b);
  }

  lemma QuietMemberStays(base: Symbol, head: Symbol, m: Member)
    requires QuietMembers(base, head) && m in base.members
    ensures exists n :: n in head.members && n.name == m.name
  {
    var removed, added := OnlyIn(base.members, head.members), OnlyIn(head.members, base.members);
    var gone := GoneMember(base, head, RenameMap(removed, added));
    LookupFinds(head.members, MemberName, m.name);
    FilterMember(base.members, (x: Member) => Lookup(head.members, MemberName, x.name).None?, m);
    if m in removed {
      QuietCollect(removed, gone, m);
      QuietOne(gone(m)[0]);
    }
  }

  // Nothing is gone, so nothing is a rename: what a protocol gains is reported.
  lemma QuietNothingGone(base: Symbol, head: Symbol)
    requires QuietMembers(base, head)
    ensures OnlyIn(base.members, head.members) == []
  {
    var removed := OnlyIn(base.members, head.members);
    if removed != [] {
      var m := removed[0];
      FilterMember(base.members, (x: Member) => Lookup(head.members, MemberName, x.name).None?, m);
      QuietMemberStays(base, head, m);
      LookupFinds(head.members, MemberName, m.name);
    }
  }

  lemma QuietProtocolMember(base: Symbol, head: Symbol, n: Member)
    requires QuietMembers(base, head) && head.kind == ProtocolClass && n in head.members
    ensures exists m :: m in base.members && m.name == n.name
  {
    var added := OnlyIn(head.members, base.members);
    QuietNothingGone(base, head);
    LookupFinds(base.members, MemberName, n.name);
    FilterMember(head.members, (x: Member) => Lookup(base.members, MemberName, x.name).None?, n);
    if n in added {
      QuietCollect(added, NewMember(head, map[]), n);
      QuietOne(NewMember(head, map[])(n)[0]);
    }
  }

  // Nothing sorted means nothing was there: the difference of the two lists of names is empty.
  lemma NothingSorted(s: seq<string>, t: seq<string>)
    requires SortedMinus(s, t) == []
    ensures forall x :: x in s ==> x in t
  {
    var only := Filter(s, (x: string) => x !in t);
    if only != [] {
      var seen := Dedup(only);
      assert seen != [];
      InsertKeeps(StableSort(seen[..|seen| - 1], TextLeq), seen[|seen| - 1], TextLeq);
    }
    forall x | x in s ensures x in t {
      FilterMember(s, (x: string) => x !in t, x);
    }
  }

  lemma NoBaseGained(head: Symbol, names: seq<string>)
    requires head.kind == ProtocolClass && Quiet(Collect(names, BaseGained(head)))
    ensures names == []
  {
    if names != [] {
      QuietCollect(names, BaseGained(head), names[0]);
      QuietOne(BaseGained(head)(names[0])[0]);
    }
  }

  lemma NoBaseLost(head: Symbol, names: seq<string>)
    requires head.kind == ProtocolClass && Quiet(Collect(names, BaseLost(head)))
    ensures names == []
  {
    if names != [] {
      QuietCollect(names, BaseLost(head), names[0]);
      QuietOne(BaseLost(head)(names[0])[0]);
    }
  }

  lemma QuietBases(base: Symbol, head: Symbol)
    requires base.kind == head.kind == ProtocolClass && Quiet(BaseChanges(base, head))
    ensures Elements(base.bases) == Elements(head.bases)
  {
    var added, removed := SortedMinus(head.bases, base.bases), SortedMinus(base.bases, head.bases);
    QuietConcat(Collect(added, BaseGained(head)), Collect(removed, BaseLost(head)));
    NoBaseGained(head, added);
    NoBaseLost(head, removed);
    NothingSorted(head.bases, base.bases);
    NothingSorted(base.bases, head.bases);
  }

  lemma QuietMemberKept(base: Symbol, head: Symbol, m: Member, n: Member)
    requires WellFormedSymbol(base) && WellFormedSymbol(head) && QuietMembers(base, head)
    requires m in base.members && n in head.members && n.name == m.name
    ensures n.kind == m.kind
    ensures if m.kind == Attribute then ResultKept(m, n, OwnerOf(head)) else SignatureServes(m, n, OwnerOf(head))
    ensures m.kind != Attribute ==> Quiet(ParamChanges(Site(head, Some(n.name), n.line, OwnerOf(head)), m, n))
  {
    var site := Site(head, Some(n.name), n.line, OwnerOf(head));
    LookupDistinct(base.members, MemberName, m);
    QuietCollect(head.members, KeptMember(base, head), n);
    QuietMemberParts(base, head, m, n);
    if m.kind != Attribute {
      QuietSignatureServes(site, m, n);
    } else {
      QuietResult(site, m, n);
    }
  }

  lemma QuietMemberParts(base: Symbol, head: Symbol, m: Member, n: Member)
    requires Lookup(base.members, MemberName, n.name) == Some(m) && Quiet(KeptMember(base, head)(n))
    ensures n.kind == m.kind
    ensures var site := Site(head, Some(n.name), n.line, OwnerOf(head));
      if m.kind == Attribute then Quiet(ReturnChange(site, m, n)) else Quiet(ParamChanges(site, m, n))
  {
    var site := Site(head, Some(n.name), n.line, OwnerOf(head));
    var kind := MemberKindChange(head, m, n);
    var rest := if n.kind == Attribute || m.kind == Attribute
                then ReturnChange(site, m, n) else ParamChanges(site, m, n);
    assert KeptMember(base, head)(n) == kind + rest;
    QuietConcat(kind, rest);
    if kind != [] {
      QuietOne(kind[0]);
    }
  }

  // ---------------------------------------------------------------- constructors

  // Without parameters only the empty call binds, so it is kept exactly when the new signature
  // asks for nothing.
  lemma NoParamsServe(now: seq<Param>)
    ensures CallsPreserved([], now) <==> AddsOptional([], now)
    ensures NoCapture([], now)
  {
    var none := Call([], map[]);
    forall call | Accepts([], call) ensures call == none {
      assert PositionalNames([]) == [] && KeywordNames([]) == {};
      assert !HasKind([], VarPositional) && !HasKind([], VarKeyword);
      assert forall k :: k !in call.keywords;
    }
    assert Accepts([], none);
    assert forall q :: q in now ==> NewTo([], q) && !TakesPosition(now, none, q) && !TakesKeyword(none, q);
    forall q | q in now ensures Binding(now, none, q) == Untouched(q) {
      CollectsNothing(now, none, q);
    }
  }

  lemma CollectsNothing(params: seq<Param>, call: Call, q: Param)
    ensures q.kind == VarKeyword && (forall k :: k in call.keywords ==> k in KeywordNames(params)) ==>
              Binding(params, call, q) == DoubleStar(map[])
  {
    var rest := map k | k in call.keywords && k !in KeywordNames(params) :: call.keywords[k];
    if forall k :: k in call.keywords ==> k in KeywordNames(params) {
      assert rest == map[];
    }
  }

  lemma QuietSignatureAddsOptional(site: Site, was: Member, now: Member)
    requires WellFormed(was.params) && WellFormed(now.params) && Quiet(ParamChanges(site, was, now))
    ensures AddsOptional(was.params, now.params)
  {
    QuietSplits(site, was, now);
    QuietIsCompatible(site, was, now);
    CompatibleAddsOptional(was.params, now.params);
  }

  lemma CompatibleAddsOptional(was: seq<Param>, now: seq<Param>)
    requires Compatible(was, now)
    ensures AddsOptional(was, now)
  {
  }

  lemma QuietInit(base: Symbol, head: Symbol)
    requires WellFormedSymbol(base) && WellFormedSymbol(head) && QuietMembers(base, head)
    requires head.kind == PlainClass
    ensures InitServes(base, head)
  {
    var was, now := Lookup(base.members, MemberName, "__init__"), Lookup(head.members, MemberName, "__init__");
    LookupFinds(base.members, MemberName, "__init__");
    LookupFinds(head.members, MemberName, "__init__");
    if was.None? {
      NoParamsServe(Init(head));
    } else {
      QuietMemberStays(base, head, was.value);
      QuietInitKept(base, head, was.value, now.value);
    }
  }

  lemma QuietInitKept(base: Symbol, head: Symbol, was: Member, now: Member)
    requires WellFormedSymbol(base) && WellFormedSymbol(head) && QuietMembers(base, head)
    requires was in base.members && now in head.members && now.name == was.name
    ensures now.kind == was.kind
    ensures was.kind == Attribute ==> CallsPreserved([], []) && NoCapture([], []) && AddsOptional([], [])
    ensures was.kind != Attribute ==>
              (CallsPreserved(was.params, now.params) <==>
                 NoCapture(was.params, now.params) && AddsOptional(was.params, now.params))
  {
    QuietMemberKept(base, head, was, now);
    if was.kind == Attribute {
      NoParamsServe([]);
    } else {
      QuietSignatureAddsOptional(Site(head, Some(now.name), now.line, OwnerOf(head)), was, now);
    }
  }

  // A plain class that gains a constructor with a parameter to be given.
  const BARE := Symbol("m", "C", PlainClass, "m.py", 1, [], false, false, [], [], [], None, None)
  const INIT := Member("__init__", Method, 2, [Param("x", Positional, None, None)], None, false)
  const BUILT := BARE.(members := [INIT])

  // The differ reports the constructor as an added member that needs no entry, and every call
  // of the class breaks.
  lemma GainedConstructorBreaks()
    ensures Quiet(SymbolChanges(BARE, BUILT)) && SymbolChanges(BARE, BUILT) != []
    ensures WellFormedSymbol(BARE) && WellFormedSymbol(BUILT)
    ensures Accepts(Init(BARE), Call([], map[])) && !Accepts(Init(BUILT), Call([], map[]))
    ensures !CallsPreserved(Init(BARE), Init(BUILT))
  {
    GainedConstructorParams();
    var x := Param("x", Positional, None, None);
    assert x in Init(BUILT) && MustBind(x);
    NoParamsServe(Init(BUILT));
    GainedConstructorChanges();
    assert !TakesPosition([x], Call([], map[]), x) && !TakesKeyword(Call([], map[]), x);
  }

  lemma GainedConstructorParams()
    ensures Init(BARE) == [] && Init(BUILT) == INIT.params
    ensures WellFormedSymbol(BARE) && WellFormedSymbol(BUILT)
  {
    assert BUILT.members == [INIT];
  }

  lemma GainedConstructorChanges()
    ensures Quiet(SymbolChanges(BARE, BUILT)) && SymbolChanges(BARE, BUILT) != []
  {
    var added := NewMember(BUILT, map[])(INIT);
    OneMemberAdded();
    assert Collect<Field, Change>([], RemovedField(BARE, BUILT)) == [];
    assert SymbolChanges(BARE, BUILT) == added;
    QuietOne(added[0]);
  }

  lemma OneMemberAdded()
    ensures MemberChanges(BARE, BUILT) == NewMember(BUILT, map[])(INIT)
  {
    FilterAll([INIT], (m: Member) => Lookup(BARE.members, MemberName, m.name).None?);
    assert OnlyIn(BARE.members, BUILT.members) == [] && OnlyIn(BUILT.members, BARE.members) == [INIT];
    CollectSnoc([], INIT, NewMember(BUILT, map[]));
    CollectSnoc([], INIT, KeptMember(BARE, BUILT));
    assert [] + [INIT] == [INIT];
  }

  // ---------------------------------------------------------------- enums

  lemma QuietEnumKept(base: Symbol, head: Symbol, h: EnumMember)
    requires Quiet(Collect(head.enumMembers, KeptEnum(base, head))) && h in head.enumMembers
    ensures Quiet(KeptEnum(base, head)(h))
    ensures KeptEnum(base, head)(h) != [] ==> KeptEnum(base, head)(h)[0].classification != EnumValueChanged
  {
    QuietCollect(head.enumMembers, KeptEnum(base, head), h);
    if KeptEnum(base, head)(h) != [] {
      QuietOne(KeptEnum(base, head)(h)[0]);
    }
  }

  lemma QuietEnumStays(base: Symbol, head: Symbol, e: EnumMember)
    requires Quiet(Collect(base.enumMembers, RemovedEnum(base, head))) && e in base.enumMembers
    ensures Lookup(head.enumMembers, EnumName, e.name).Some?
  {
    QuietCollect(base.enumMembers, RemovedEnum(base, head), e);
    if Lookup(head.enumMembers, EnumName, e.name).None? {
      QuietOne(RemovedEnum(base, head)(e)[0]);
    }
  }

  lemma QuietEnum(base: Symbol, head: Symbol, e: EnumMember)
    requires Quiet(EnumChanges(base, head)) && e in base.enumMembers
    ensures EnumServes(base, head, e.name)
  {
    QuietConcat(Collect(base.enumMembers, RemovedEnum(base, head)), Collect(head.enumMembers, KeptEnum(base, head)));
    LookupFinds(base.enumMembers, EnumName, e.name);
    LookupFinds(head.enumMembers, EnumName, e.name);
    QuietEnumStays(base, head, e);
    QuietEnumKept(base, head, Lookup(head.enumMembers, EnumName, e.name).value);
  }

  // ---------------------------------------------------------------- symbols

  lemma QuietClassParts(base: Symbol, head: Symbol)
    requires Quiet(KindOfSymbolChange(base, head) + FrozenChange(base, head) + SymbolMarkerChange(base, head)
                   + BaseChanges(base, head) + MemberChanges(base, head) + FieldChanges(base, head)
                   + EnumChanges(base, head))
    ensures base.kind == head.kind && (head.frozen ==> base.frozen)
    ensures Quiet(MemberChanges(base, head)) && Quiet(FieldChanges(base, head)) && Quiet(EnumChanges(base, head))
    ensures Quiet(BaseChanges(base, head))
  {
    var a, b, c := KindOfSymbolChange(base, head), FrozenChange(base, head), SymbolMarkerChange(base, head);
    var d, e, f := BaseChanges(base, head), MemberChanges(base, head), FieldChanges(base, head);
    QuietConcat(a + b + c + d + e + f, EnumChanges(base, head));
    QuietConcat(a + b + c + d + e, f);
    QuietConcat(a + b + c + d, e);
    QuietConcat(a + b + c, d);
    QuietConcat(a + b, c);
    QuietConcat(a, b);
    if a != [] { QuietOne(a[0]); }
    if b != [] { QuietOne(b[0]); }
  }

  lemma QuietFieldTypes(base: Symbol, head: Symbol)
    requires Distinct(base.fields, FieldName) && Quiet(FieldChanges(base, head))
    ensures FieldTypesKept(base, head)
  {
    QuietFieldsSplit(base, head);
    forall g, f | g in base.fields && f in head.fields && f.name == g.name
      ensures UnionOf(Some(f.annotation)) == UnionOf(Some(g.annotation))
    {
      QuietFieldParts(base, head, g, f);
      QuietFieldType(head, g, f);
    }
  }

  lemma QuietFieldType(head: Symbol, g: Field, f: Field)
    requires Quiet(FieldTypeChange(head, g, f))
    ensures UnionOf(Some(f.annotation)) == UnionOf(Some(g.annotation))
  {
    if FieldTypeChange(head, g, f) != [] {
      QuietOne(FieldTypeChange(head, g, f)[0]);
    }
  }

  lemma QuietClass(base: Symbol, head: Symbol)
    requires WellFormedSymbol(base) && WellFormedSymbol(head)
    requires Quiet(MemberChanges(base, head)) && Quiet(FieldChanges(base, head)) && Quiet(EnumChanges(base, head))
    requires Quiet(BaseChanges(base, head))
    requires head.kind == base.kind && (head.frozen ==> base.frozen)
    ensures ClassServes(base, head)
  {
    QuietMembersSplit(base, head);
    forall m | m in base.members ensures MemberServes(base, head, m) {
      QuietMemberStays(base, head, m);
      var n :| n in head.members && n.name == m.name;
      QuietMemberKept(base, head, m, n);
    }
    if base.kind == ProtocolClass {
      QuietBases(base, head);
      forall n | n in head.members ensures exists m :: m in base.members && m.name == n.name {
        QuietProtocolMember(base, head, n);
      }
    }
    QuietFieldsServeIff(base, head);
    if Distinct(base.fields, FieldName) && Distinct(head.fields, FieldName) {
      ConstructorKept(base, head);
      QuietFieldTypes(base, head);
    }
    if base.kind == PlainClass {
      QuietInit(base, head);
    }
    forall e | e in base.enumMembers ensures EnumServes(base, head, e.name) {
      QuietEnum(base, head, e);
    }
  }

  lemma SymbolSoundness(base: Symbol, head: Symbol)
    requires WellFormedSymbol(base) && WellFormedSymbol(head)
    requires Quiet(SymbolChanges(base, head))
    ensures SymbolServes(base, head)
  {
    if head.kind == Alias && base.kind == Alias {
      if AliasChange(base, head) != [] {
        QuietOne(AliasChange(base, head)[0]);
      }
    } else if head.kind == FunctionSymbol && base.signature.Some? && head.signature.Some? {
      QuietSignatureServes(Site(head, None, head.signature.value.line, OwnerCallable),
                           base.signature.value, head.signature.value);
    } else {
      QuietClassParts(base, head);
      QuietClass(base, head);
    }
  }

  // The differ's verdict over two whole trees: when nothing it reports needs a changelog
  // entry, every public symbol of the base is still there and still serves its users.
  lemma QuietDiffServes(base: Surface, head: Surface)
    requires WellFormedSurface(base) && WellFormedSurface(head)
    requires Quiet(SurfaceChanges(base, head))
    ensures UsersServed(base, head)
  {
    QuietConcat(Collect(base.symbols, RemovedSymbol(head)), Collect(head.symbols, HeadSymbol(base)));
    forall b | b in base.symbols
      ensures exists h :: h in head.symbols && h.Key() == b.Key() && SymbolServes(b, h)
    {
      QuietCollect(base.symbols, RemovedSymbol(head), b);
      LookupFinds(head.symbols, SymbolName, b.Key());
      if Lookup(head.symbols, SymbolName, b.Key()).None? {
        QuietOne(RemovedSymbol(head)(b)[0]);
      } else {
        var h := Lookup(head.symbols, SymbolName, b.Key()).value;
        LookupDistinct(base.symbols, SymbolName, b);
        QuietCollect(head.symbols, HeadSymbol(base), h);
        SymbolSoundness(b, h);
      }
    }
  }
}
