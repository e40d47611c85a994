// What a quiet field diff means for the constructor calls of a dataclass or NamedTuple.
module ConstructorSoundness {
  import opened Common
  import opened ContractSurface
  import opened CallBinding
  import opened SignatureSoundness

  function ConstructorParam(f: Field): Param {
    Param(f.name, if f.keywordOnly then KeywordOnly else Positional, Some(f.annotation), f.default)
  }

  // The signature a dataclass generates for its fields.
  function Constructor(fields: seq<Field>): seq<Param> {
    Map(fields, ConstructorParam)
  }

  // The place of the field of that name.
  function PlaceOf(fields: seq<Field>, name: string): (i: Option<nat>)
    ensures i.Some? ==> i.value < |fields| && fields[i.value].name == name
    ensures i.None? ==> forall f :: f in fields ==> f.name != name
  {
    if fields == [] then None
    else if fields[|fields| - 1].name == name then Some(|fields| - 1)
    else PlaceOf(fields[..|fields| - 1], name)
  }

  // Annotating a name again keeps its place, and its default unless a new one is assigned.
  function Annotate(fields: seq<Field>, f: Field): seq<Field> {
    match PlaceOf(fields, f.name)
    case None => fields + [f]
    case Some(i) =>
      fields[i := f.(default := if f.default.Some? then f.default else fields[i].default,
                     keywordOnly := fields[i].keywordOnly)]
  }

  // The fields a class body ends up with.
  function Effective(fields: seq<Field>): seq<Field> {
    if fields == [] then [] else Annotate(Effective(fields[..|fields| - 1]), fields[|fields| - 1])
  }

  // The constructor a dataclass generates, also when its body annotates a name twice.
  function Generated(s: Symbol): seq<Param> {
    Constructor(Effective(s.fields))
  }

  lemma {:induction false} EffectiveDistinct(fields: seq<Field>)
    ensures Distinct(Effective(fields), FieldName)
  {
    if fields != [] {
      EffectiveDistinct(fields[..|fields| - 1]);
      AnnotateDistinct(Effective(fields[..|fields| - 1]), fields[|fields| - 1]);
    }
  }

  lemma AnnotateDistinct(fields: seq<Field>, f: Field)
    requires Distinct(fields, FieldName)
    ensures Distinct(Annotate(fields, f), FieldName)
  {
    var more := Annotate(fields, f);
    forall i, j | 0 <= i < j < |more| ensures FieldName(more[i]) != FieldName(more[j]) {
      assert i < |fields| ==> more[i].name == fields[i].name && fields[i] in fields;
      assert j < |fields| ==> more[j].name == fields[j].name && FieldName(fields[i]) != FieldName(fields[j]);
    }
  }

  lemma {:induction false} EffectiveSame(fields: seq<Field>)
    requires Distinct(fields, FieldName)
    ensures Effective(fields) == fields
  {
    if fields != [] {
      var front, last := fields[..|fields| - 1], fields[|fields| - 1];
      LastIsNew(fields);
      EffectiveSame(front);
      AnnotateNew(front, last);
      assert fields == front + [last];
    }
  }

  lemma LastIsNew(fields: seq<Field>)
    requires fields != [] && Distinct(fields, FieldName)
    ensures Distinct(fields[..|fields| - 1], FieldName)
    ensures !Names(fields[..|fields| - 1], fields[|fields| - 1].name)
  {
    var front, last := fields[..|fields| - 1], fields[|fields| - 1];
    forall f | f in front ensures f.name != last.name {
      var i :| 0 <= i < |front| && front[i] == f;
      assert FieldName(fields[i]) != FieldName(fields[|fields| - 1]);
    }
  }

  lemma AnnotateNew(fields: seq<Field>, f: Field)
    requires !Names(fields, f.name)
    ensures Annotate(fields, f) == fields + [f]
  {
  }

  lemma {:induction false} ConstructorPositions(fields: seq<Field>)
    ensures PositionalParams(Constructor(fields)) == Map(PositionalFields(fields), ConstructorParam)
  {
    if fields != [] {
      var front, last := fields[..|fields| - 1], fields[|fields| - 1];
      ConstructorPositions(front);
      assert Constructor(fields) == Constructor(front) + [ConstructorParam(last)];
      FilterSnoc(Constructor(front), ConstructorParam(last), (p: Param) => IsPositional(p.kind));
    }
  }

  lemma ConstructorNames(fields: seq<Field>)
    ensures PositionalNames(Constructor(fields)) == PositionalFieldNames(fields)
  {
    ConstructorPositions(fields);
  }

  lemma FromField(fields: seq<Field>, p: Param)
    requires p in Constructor(fields)
    ensures exists f :: f in fields && p == ConstructorParam(f)
  {
    var i :| 0 <= i < |fields| && Constructor(fields)[i] == p;
    assert fields[i] in fields;
  }

  lemma ToParam(fields: seq<Field>, f: Field)
    requires f in fields
    ensures ConstructorParam(f) in Constructor(fields)
  {
    var i :| 0 <= i < |fields| && fields[i] == f;
    assert Constructor(fields)[i] == ConstructorParam(f);
  }

  lemma ConstructorWellFormed(fields: seq<Field>)
    requires Distinct(fields, FieldName)
    ensures WellFormed(Constructor(fields))
  {
    var params := Constructor(fields);
    forall i, j | 0 <= i < j < |params| ensures ParamName(params[i]) != ParamName(params[j]) {
      assert FieldName(fields[i]) != FieldName(fields[j]);
    }
    forall p | p in params ensures p.kind != VarPositional && p.kind != VarKeyword {
      FromField(fields, p);
    }
  }

  ghost predicate QuietFields(base: Symbol, head: Symbol) {
    && Quiet(Collect(base.fields, RemovedField(base, head)))
    && Quiet(Collect(head.fields, AddedField(base, head)))
    && Quiet(Collect(head.fields, KeptField(base, head)))
  }

  lemma QuietFieldsSplit(base: Symbol, head: Symbol)
    requires Quiet(FieldChanges(base, head))
    ensures QuietFields(base, head)
  {
    var a, b := Collect(base.fields, RemovedField(base, head)), Collect(head.fields, AddedField(base, head));
    QuietConcat(a + b, Collect(head.fields, KeptField(base, head)));
    QuietConcat(a, b);
  }

  lemma QuietFieldStays(base: Symbol, head: Symbol, g: Field)
    requires QuietFields(base, head) && g in base.fields
    ensures exists f :: f in head.fields && f.name == g.name
  {
    QuietCollect(base.fields, RemovedField(base, head), g);
    LookupFinds(head.fields, FieldName, g.name);
    if Lookup(head.fields, FieldName, g.name).None? {
      QuietOne(RemovedField(base, head)(g)[0]);
    }
  }

  lemma QuietFieldAdded(base: Symbol, head: Symbol, f: Field)
    requires QuietFields(base, head) && f in head.fields
    requires forall g :: g in base.fields ==> g.name != f.name
    ensures f.default.Some?
  {
    QuietCollect(head.fields, AddedField(base, head), f);
    LookupFinds(base.fields, FieldName, f.name);
    QuietAddition(base, head, f);
  }

  lemma QuietAddition(base: Symbol, head: Symbol, f: Field)
    requires Lookup(base.fields, FieldName, f.name) == None && Quiet(AddedField(base, head)(f))
    ensures f.default.Some?
  {
    QuietOne(AddedField(base, head)(f)[0]);
  }

  lemma QuietFieldParts(base: Symbol, head: Symbol, g: Field, f: Field)
    requires Distinct(base.fields, FieldName) && QuietFields(base, head)
    requires g in base.fields && f in head.fields && g.name == f.name
    ensures Quiet(OrderChange(base, head, f)) && Quiet(FieldTypeChange(head, g, f))
    ensures Quiet(FieldDefaultChange(head, g, f))
  {
    LookupDistinct(base.fields, FieldName, g);
    QuietCollect(head.fields, KeptField(base, head), f);
    QuietConcat(OrderChange(base, head, f) + FieldTypeChange(head, g, f), FieldDefaultChange(head, g, f));
    QuietConcat(OrderChange(base, head, f), FieldTypeChange(head, g, f));
  }

  lemma QuietOrder(base: Symbol, head: Symbol, f: Field)
    requires Quiet(OrderChange(base, head, f))
    ensures !Reordered(base, head, f.name)
  {
    if OrderChange(base, head, f) != [] {
      QuietOne(OrderChange(base, head, f)[0]);
    }
  }

  lemma QuietDefault(head: Symbol, g: Field, f: Field)
    requires Quiet(FieldDefaultChange(head, g, f))
    ensures g.default.Some? ==> TextOfDefault(f.default) == TextOfDefault(g.default)
  {
    if FieldDefaultChange(head, g, f) != [] {
      QuietOne(FieldDefaultChange(head, g, f)[0]);
    }
  }

  lemma QuietFieldKept(base: Symbol, head: Symbol, g: Field, f: Field)
    requires Distinct(base.fields, FieldName) && QuietFields(base, head)
    requires g in base.fields && f in head.fields && g.name == f.name
    ensures !Reordered(base, head, f.name)
    ensures g.default.Some? ==> TextOfDefault(f.default) == TextOfDefault(g.default)
  {
    QuietFieldParts(base, head, g, f);
    QuietOrder(base, head, f);
    QuietDefault(head, g, f);
  }

  lemma PositionalFieldHolds(fields: seq<Field>, name: string)
    ensures name in PositionalFieldNames(fields)
       <==> exists f :: f in fields && !f.keywordOnly && f.name == name
  {
    ConstructorNames(fields);
    PositionalNamesHold(Constructor(fields), name);
    if p :| p in Constructor(fields) && IsPositional(p.kind) && p.name == name {
      FromField(fields, p);
    }
    if f :| f in fields && !f.keywordOnly && f.name == name {
      ToParam(fields, f);
    }
  }

  lemma KeywordOnlyHasNoPosition(fields: seq<Field>, f: Field)
    requires Distinct(fields, FieldName) && f in fields && f.keywordOnly
    ensures f.name !in PositionalFieldNames(fields)
  {
    PositionalFieldHolds(fields, f.name);
    forall h | h in fields && h.name == f.name ensures h == f {
      var i :| 0 <= i < |fields| && fields[i] == f;
      var j :| 0 <= j < |fields| && fields[j] == h;
      assert FieldName(fields[i]) == FieldName(fields[j]);
    }
  }

  // The base's positional fields keep their places at the front of the head's.
  lemma QuietFieldPrefix(base: Symbol, head: Symbol)
    requires Distinct(base.fields, FieldName) && Distinct(head.fields, FieldName) && QuietFields(base, head)
    ensures PositionalFieldNames(base.fields) <= PositionalFieldNames(head.fields)
  {
    var a, b := PositionalFieldNames(base.fields), PositionalFieldNames(head.fields);
    forall x | x in a ensures x in b && IndexOf(a, x) == IndexOf(b, x) {
      PositionalFieldHolds(base.fields, x);
      var g :| g in base.fields && !g.keywordOnly && g.name == x;
      QuietFieldStays(base, head, g);
      var f :| f in head.fields && f.name == x;
      QuietFieldKept(base, head, g, f);
    }
    ConstructorWellFormed(base.fields);
    ConstructorNames(base.fields);
    NoSlotTwice(Constructor(base.fields));
    SameIndexIsPrefix(a, b);
  }

  lemma QuietFieldsReplace(base: Symbol, head: Symbol, p: Param, q: Param)
    requires Distinct(base.fields, FieldName) && Distinct(head.fields, FieldName) && QuietFields(base, head)
    requires p in Constructor(base.fields) && q in Constructor(head.fields) && p.name == q.name
    ensures Replaces(p, q)
  {
    FromField(base.fields, p);
    FromField(head.fields, q);
    var g :| g in base.fields && p == ConstructorParam(g);
    var f :| f in head.fields && q == ConstructorParam(f);
    QuietFieldKept(base, head, g, f);
    if !g.keywordOnly && f.keywordOnly {
      PositionalFieldHolds(base.fields, g.name);
      KeywordOnlyHasNoPosition(head.fields, f);
      assert false;
    }
  }

  lemma QuietFieldsCompatible(base: Symbol, head: Symbol)
    requires Distinct(base.fields, FieldName) && Distinct(head.fields, FieldName) && QuietFields(base, head)
    ensures Compatible(Constructor(base.fields), Constructor(head.fields))
  {
    var was, now := Constructor(base.fields), Constructor(head.fields);
    QuietFieldPrefix(base, head);
    ConstructorNames(base.fields);
    ConstructorNames(head.fields);
    forall p, q | p in was && q in now && p.name == q.name ensures Replaces(p, q) {
      QuietFieldsReplace(base, head, p, q);
    }
    forall p | p in was ensures exists q :: q in now && q.name == p.name {
      FromField(base.fields, p);
      var g :| g in base.fields && p == ConstructorParam(g);
      QuietFieldStays(base, head, g);
      var f :| f in head.fields && f.name == g.name;
      ToParam(head.fields, f);
    }
    forall q | q in now && NewTo(was, q) ensures q.default.Some? {
      FromField(head.fields, q);
      var f :| f in head.fields && q == ConstructorParam(f);
      forall g | g in base.fields ensures g.name != f.name {
        ToParam(base.fields, g);
      }
      QuietFieldAdded(base, head, f);
    }
  }

  lemma GeneratedStarless(s: Symbol)
    ensures WellFormed(Generated(s)) && Starless(Generated(s))
  {
    EffectiveDistinct(s.fields);
    ConstructorWellFormed(Effective(s.fields));
    forall p | p in Generated(s) ensures Keywordable(p.kind) {
      FromField(Effective(s.fields), p);
    }
  }

  // Whatever a body repeats, the constructor's calls are kept exactly when the old positional
  // fields come first, every old field has a replacement and every added one a default.
  lemma ConstructorKeptIff(base: Symbol, head: Symbol)
    ensures CallsPreserved(Generated(base), Generated(head)) <==> Compatible(Generated(base), Generated(head))
  {
    GeneratedStarless(base);
    GeneratedStarless(head);
    StarlessServesIff(Generated(base), Generated(head));
  }

  // What a quiet field diff leaves open when a body repeats a name: the old positional fields
  // come first, and every old default is still there.
  ghost predicate PlacesKept(base: Symbol, head: Symbol) {
    && PositionalNames(Generated(base)) <= PositionalNames(Generated(head))
    && forall p, q :: p in Generated(base) && q in Generated(head) && p.name == q.name && p.default.Some? ==>
         TextOfDefault(q.default) == TextOfDefault(p.default)
  }

  ghost predicate Names(fields: seq<Field>, name: string) {
    exists f :: f in fields && f.name == name
  }

  lemma NamesArePlaces(fields: seq<Field>, name: string)
    ensures Names(fields, name) <==> PlaceOf(fields, name).Some?
  {
    if PlaceOf(fields, name).Some? {
      assert fields[PlaceOf(fields, name).value] in fields;
    }
  }

  lemma {:induction false} PlaceByNames(a: seq<Field>, b: seq<Field>, name: string)
    requires |a| == |b| && forall i :: 0 <= i < |a| ==> a[i].name == b[i].name
    ensures PlaceOf(a, name) == PlaceOf(b, name)
  {
    if a != [] {
      PlaceByNames(a[..|a| - 1], b[..|b| - 1], name);
    }
  }

  lemma AnnotatePlaces(fields: seq<Field>, f: Field, name: string)
    ensures PlaceOf(Annotate(fields, f), name).Some? <==> PlaceOf(fields, name).Some? || f.name == name
  {
    if PlaceOf(fields, f.name).Some? {
      PlaceByNames(Annotate(fields, f), fields, name);
    } else {
      assert (fields + [f])[..|fields|] == fields;
    }
  }

  lemma {:induction false} EffectivePlaces(fields: seq<Field>, name: string)
    ensures PlaceOf(Effective(fields), name).Some? <==> PlaceOf(fields, name).Some?
  {
    if fields != [] {
      EffectivePlaces(fields[..|fields| - 1], name);
      AnnotatePlaces(Effective(fields[..|fields| - 1]), fields[|fields| - 1], name);
    }
  }

  lemma EffectiveNames(fields: seq<Field>, name: string)
    ensures Names(Effective(fields), name) <==> Names(fields, name)
  {
    NamesArePlaces(fields, name);
    NamesArePlaces(Effective(fields), name);
    EffectivePlaces(fields, name);
  }

  // A name every annotation of which has a default ends up with one.
  ghost predicate Defaulted(fields: seq<Field>, name: string) {
    forall f :: f in fields && f.name == name ==> f.default.Some?
  }

  lemma AnnotateDefaulted(fields: seq<Field>, f: Field, name: string)
    requires Defaulted(fields, name) && (f.name == name ==> f.default.Some?)
    ensures Defaulted(Annotate(fields, f), name)
  {
    var more := Annotate(fields, f);
    forall g | g in more && g.name == name ensures g.default.Some? {
      var k :| 0 <= k < |more| && more[k] == g;
      assert k < |fields| && (PlaceOf(fields, f.name).None? || k != PlaceOf(fields, f.name).value) ==> g in fields;
    }
  }

  lemma {:induction false} EffectiveDefaulted(fields: seq<Field>, name: string)
    requires Defaulted(fields, name)
    ensures Defaulted(Effective(fields), name)
  {
    if fields != [] {
      var front, last := fields[..|fields| - 1], fields[|fields| - 1];
      assert last in fields && forall f :: f in front ==> f in fields;
      EffectiveDefaulted(front, name);
      AnnotateDefaulted(Effective(front), last, name);
    }
  }

  lemma GeneratedNames(s: Symbol, name: string)
    ensures (exists p :: p in Generated(s) && p.name == name) <==> Names(s.fields, name)
  {
    EffectiveNames(s.fields, name);
    if p :| p in Generated(s) && p.name == name {
      FromField(Effective(s.fields), p);
    }
    if f :| f in Effective(s.fields) && f.name == name {
      ToParam(Effective(s.fields), f);
    }
  }

  lemma QuietGeneratedAddition(base: Symbol, head: Symbol, q: Param)
    requires QuietFields(base, head) && q in Generated(head) && NewTo(Generated(base), q)
    ensures q.default.Some?
  {
    GeneratedNames(base, q.name);
    forall f | f in head.fields && f.name == q.name ensures f.default.Some? {
      QuietFieldAdded(base, head, f);
    }
    EffectiveDefaulted(head.fields, q.name);
    FromField(Effective(head.fields), q);
  }

  lemma QuietGeneratedStays(base: Symbol, head: Symbol, p: Param)
    requires QuietFields(base, head) && p in Generated(base)
    ensures exists q :: q in Generated(head) && q.name == p.name
  {
    GeneratedNames(base, p.name);
    var g :| g in base.fields && g.name == p.name;
    QuietFieldStays(base, head, g);
    GeneratedNames(head, p.name);
  }

  // Old positions in front leave room for a keyword-only field to become positional, and for
  // nothing else.
  lemma PlacesReplace(was: seq<Param>, now: seq<Param>, p: Param, q: Param)
    requires WellFormed(now) && Starless(was) && Starless(now) && PositionalNames(was) <= PositionalNames(now)
    requires p in was && q in now && p.name == q.name
    requires p.default.Some? ==> TextOfDefault(q.default) == TextOfDefault(p.default)
    ensures Replaces(p, q)
  {
    if IsPositional(p.kind) {
      PositionalNamesHold(was, p.name);
      IndexInPrefix(PositionalNames(was), PositionalNames(now), p.name);
      PositionalNamesHold(now, q.name);
      var r :| r in now && IsPositional(r.kind) && r.name == q.name;
      SameName(now, q, r);
    }
  }

  // When no field change needs an entry, the generated constructor keeps its calls exactly when
  // places and defaults are kept, whatever names the bodies repeat.
  lemma QuietFieldsServeIff(base: Symbol, head: Symbol)
    requires Quiet(FieldChanges(base, head))
    ensures CallsPreserved(Generated(base), Generated(head)) <==> PlacesKept(base, head)
  {
    QuietFieldsSplit(base, head);
    ConstructorKeptIff(base, head);
    if PlacesKept(base, head) {
      PlacesCompatible(base, head);
    }
    if Compatible(Generated(base), Generated(head)) {
      CompatiblePlaces(base, head);
    }
  }

  lemma CompatiblePlaces(base: Symbol, head: Symbol)
    requires Compatible(Generated(base), Generated(head))
    ensures PlacesKept(base, head)
  {
    var was, now := Generated(base), Generated(head);
    forall p, q | p in was && q in now && p.name == q.name && p.default.Some?
      ensures TextOfDefault(q.default) == TextOfDefault(p.default)
    {
      assert Replaces(p, q);
    }
  }

  lemma PlacesCompatible(base: Symbol, head: Symbol)
    requires QuietFields(base, head) && PlacesKept(base, head)
    ensures Compatible(Generated(base), Generated(head))
  {
    var was, now := Generated(base), Generated(head);
    GeneratedStarless(base);
    GeneratedStarless(head);
    forall p, q | p in was && q in now && p.name == q.name ensures Replaces(p, q) {
      PlacesReplace(was, now, p, q);
    }
    forall p | p in was ensures exists q :: q in now && q.name == p.name {
      QuietGeneratedStays(base, head, p);
    }
    forall q | q in now && NewTo(was, q) ensures q.default.Some? {
      QuietGeneratedAddition(base, head, q);
    }
  }

  // A quiet field diff keeps every constructor call, positional or by keyword, with the same
  // bindings and defaults; a keyword-only field may have become positional meanwhile.
  lemma ConstructorKept(base: Symbol, head: Symbol)
    requires Distinct(base.fields, FieldName) && Distinct(head.fields, FieldName)
    requires Quiet(FieldChanges(base, head))
    ensures PositionalFieldNames(base.fields) <= PositionalFieldNames(head.fields)
    ensures CallsPreserved(Generated(base), Generated(head))
  {
    EffectiveSame(base.fields);
    EffectiveSame(head.fields);
    QuietFieldsSplit(base, head);
    QuietFieldPrefix(base, head);
    QuietFieldsCompatible(base, head);
    ConstructorKeptIff(base, head);
  }

  // A body that repeats a field hides a shift: x, x, y to x, z, y.
  const X1 := Field("x", Annotation("int", {"int"}), None, false, 1)
  const X2 := X1.(line := 2)
  const Y3 := Field("y", Annotation("int", {"int"}), Some(DefaultText("0", true)), false, 3)
  const Z2 := Field("z", Annotation("int", {"int"}), Some(DefaultText("0", true)), false, 2)
  const REPEATING := Symbol("m", "C", DataClass, "m.py", 1, [], false, false, [], [X1, X2, Y3], [], None, None)
  const SHIFTED := REPEATING.(fields := [X1, Z2, Y3])

  lemma ShiftPositions()
    ensures PositionalFieldNames([X1, X2, Y3]) == ["x", "x", "y"]
    ensures PositionalFieldNames([X1, Z2, Y3]) == ["x", "z", "y"]
    ensures PositionalFieldNames([X2, Y3]) == ["x", "y"]
  {
    AllPositional([X1, X2, Y3]);
    AllPositional([X1, Z2, Y3]);
    AllPositional([X2, Y3]);
  }

  lemma AllPositional(fields: seq<Field>)
    requires forall f :: f in fields ==> !f.keywordOnly
    ensures PositionalFieldNames(fields) == Map(fields, FieldName)
  {
    FilterAll(fields, (f: Field) => !f.keywordOnly);
  }

  lemma ShiftLookups()
    ensures Lookup(REPEATING.fields, FieldName, "x") == Some(X2) && Lookup(REPEATING.fields, FieldName, "y") == Some(Y3)
    ensures Lookup(SHIFTED.fields, FieldName, "x") == Some(X1) && Lookup(SHIFTED.fields, FieldName, "y") == Some(Y3)
    ensures Lookup(REPEATING.fields, FieldName, "z") == None
  {
    LookupThree(X1, X2, Y3, FieldName, "x");
    LookupThree(X1, X2, Y3, FieldName, "y");
    LookupThree(X1, X2, Y3, FieldName, "z");
    LookupThree(X1, Z2, Y3, FieldName, "x");
    LookupThree(X1, Z2, Y3, FieldName, "y");
  }

  lemma LookupThree<T>(a: T, b: T, c: T, nameOf: T -> string, name: string)
    ensures Lookup([a, b, c], nameOf, name)
         == if nameOf(c) == name then Some(c)
            else if nameOf(b) == name then Some(b)
            else if nameOf(a) == name then Some(a)
            else None
  {
    assert [a, b, c][..2] == [a, b] && [a, b][..1] == [a] && [a][..0] == [];
    assert Lookup([a], nameOf, name) == if nameOf(a) == name then Some(a) else None;
  }

  lemma ShiftNotRemoved(f: Field)
    requires f in REPEATING.fields
    ensures RemovedField(REPEATING, SHIFTED)(f) == []
  {
    ShiftLookups();
  }

  lemma ShiftNotMoved(f: Field)
    requires f == X1 || f == Y3
    ensures !Reordered(REPEATING, SHIFTED, f.name)
  {
    ShiftPositions();
  }

  lemma ShiftKept(f: Field)
    requires f in SHIFTED.fields
    ensures KeptField(REPEATING, SHIFTED)(f) == []
    ensures f != Z2 ==> AddedField(REPEATING, SHIFTED)(f) == []
  {
    ShiftLookups();
    if f != Z2 {
      ShiftNotMoved(f);
    }
  }

  lemma ShiftAdds()
    ensures Collect(SHIFTED.fields, AddedField(REPEATING, SHIFTED)) == AddedField(REPEATING, SHIFTED)(Z2)
  {
    ShiftKept(X1);
    ShiftKept(Y3);
    CollectThree(X1, Z2, Y3, AddedField(REPEATING, SHIFTED));
  }

  lemma ShiftChanges()
    ensures FieldChanges(REPEATING, SHIFTED) == AddedField(REPEATING, SHIFTED)(Z2)
  {
    forall f | f in REPEATING.fields ensures RemovedField(REPEATING, SHIFTED)(f) == [] {
      ShiftNotRemoved(f);
    }
    CollectEmpty(REPEATING.fields, RemovedField(REPEATING, SHIFTED));
    forall f | f in SHIFTED.fields ensures KeptField(REPEATING, SHIFTED)(f) == [] {
      ShiftKept(f);
    }
    CollectEmpty(SHIFTED.fields, KeptField(REPEATING, SHIFTED));
    ShiftAdds();
  }

  lemma CollectThree<T, U>(a: T, b: T, c: T, f: T -> seq<U>)
    ensures Collect([a, b, c], f) == f(a) + f(b) + f(c)
  {
    assert [a, b, c] == [a, b] + [c] && [a, b] == [a] + [b] && [a] == [] + [a];
    CollectSnoc([a, b], c, f);
    CollectSnoc([a], b, f);
    CollectSnoc([], a, f);
  }

  // The differ asks for no entry, and the second positional argument lands elsewhere.
  lemma RepeatedFieldHidesShift()
    ensures Quiet(FieldChanges(REPEATING, SHIFTED))
    ensures !CallsPreserved(Generated(REPEATING), Generated(SHIFTED))
  {
    ShiftQuiet();
    ConstructorKeptIff(REPEATING, SHIFTED);
    ShiftNames();
    assert ["x", "z", "y"][1] != ["x", "y"][1];
  }

  lemma ShiftQuiet()
    ensures Quiet(FieldChanges(REPEATING, SHIFTED))
  {
    ShiftChanges();
    QuietOptional(REPEATING, SHIFTED, Z2);
  }

  lemma QuietOptional(base: Symbol, head: Symbol, f: Field)
    requires f.default.Some?
    ensures Quiet(AddedField(base, head)(f))
  {
    if Lookup(base.fields, FieldName, f.name).None? {
      QuietOne(AddedField(base, head)(f)[0]);
    }
  }

  lemma ShiftEffective()
    ensures Effective([X1, X2, Y3]) == [X2, Y3]
  {
    EffectiveSame([X1]);
    AnnotateAgain();
    EffectiveSnoc([X1], X2);
    EffectiveSnoc([X1, X2], Y3);
    assert [X1] + [X2] == [X1, X2] && [X1, X2] + [Y3] == [X1, X2, Y3];
  }

  lemma EffectiveSnoc(fields: seq<Field>, f: Field)
    ensures Effective(fields + [f]) == Annotate(Effective(fields), f)
  {
    assert (fields + [f])[..|fields|] == fields;
  }

  lemma AnnotateAgain()
    ensures Annotate([X1], X2) == [X2] && Annotate([X2], Y3) == [X2, Y3]
  {
    assert [X1][..0] == [] && [X2][..0] == [];
  }

  lemma ShiftNames()
    ensures PositionalNames(Generated(REPEATING)) == ["x", "y"]
    ensures PositionalNames(Generated(SHIFTED)) == ["x", "z", "y"]
  {
    ShiftEffective();
    EffectiveSame([X1, Z2, Y3]);
    ShiftPositions();
    ConstructorNames([X2, Y3]);
    ConstructorNames([X1, Z2, Y3]);
  }
}
