// What the report of two surfaces says, by topic: members, fields, enum members and the symbols
// themselves, on top of the accounting of signatures.
module ReportAccounting {
  import opened Common
  import opened Permutations
  import opened Sorting
  import opened ContractSurface
  import opened ChangeAccounting
  import TextOps

  // The sections that may announce a change, spelled out apart from the differ's table.
  const ANY := [Breaking, Consumer]
  const ALL := [Breaking, Consumer, Deprecated, Changed]

  // ---------------------------------------------------------------- members

  function Renames(base: Symbol, head: Symbol): map<string, string> {
    RenameMap(OnlyIn(base.members, head.members), OnlyIn(head.members, base.members))
  }

  function GoneMemberReport(base: Symbol, head: Symbol, m: Member, cls: Classification): seq<Change> {
    var renamed := Renames(base, head);
    if m.name in renamed
    then OneIf(cls == Renamed,
               Change(Renamed, head.Key(), Some(m.name), None, head.file, LineOf(head.members, renamed[m.name]),
                      Equal, ANY, Some(m.name), Some(renamed[m.name])))
    else OneIf(cls == RemovedMember,
               Change(RemovedMember, head.Key(), Some(m.name), None, base.file, m.line,
                      Equal, ANY, Some(SignatureText(m)), None))
  }

  function NewMemberReport(base: Symbol, head: Symbol, n: Member, cls: Classification): seq<Change> {
    OneIf(cls == AddedMember && n.name !in Renames(base, head).Values,
          Change(AddedMember, head.Key(), Some(n.name), None, head.file, n.line, Equal,
                 if head.kind == ProtocolClass then [Breaking] else [], None, Some(SignatureText(n))))
  }

  function MemberSite(head: Symbol, n: Member): Site {
    Site(head, Some(n.name), n.line, if head.kind == ProtocolClass then OwnerProtocol else OwnerCallable)
  }

  // A member of both classes: its kind, and its signature or, for an attribute, its type.
  function KeptMemberReport(head: Symbol, m: Member, n: Member, t: Topic): seq<Change> {
    var site := MemberSite(head, n);
    OneIf(t.param.None? && t.classification == ParamKindChanged && m.kind != n.kind,
          Entry(site, ParamKindChanged, None, Equal, ANY, Some(MemberKindText(m.kind)), Some(MemberKindText(n.kind))))
    + if m.kind != Attribute && n.kind != Attribute then SignatureReport(site, m, n, t)
      else if t.param.None? && t.classification == ReturnAnnotationChanged then ResultReport(site, m, n)
      else []
  }

  function MemberReport(base: Symbol, head: Symbol, t: Topic): seq<Change> {
    if t.path != head.Key() || t.member.None? then []
    else
      var name, own := t.member.value, t.param.None?;
      match (Lookup(base.members, MemberName, name), Lookup(head.members, MemberName, name))
      case (None, None) => []
      case (Some(m), None) => if own then GoneMemberReport(base, head, m, t.classification) else []
      case (None, Some(n)) => if own then NewMemberReport(base, head, n, t.classification) else []
      case (Some(m), Some(n)) => KeptMemberReport(head, m, n, t)
  }

  // ---------------------------------------------------------------- members: the proof

  function Missing(other: seq<Member>): Member -> bool {
    (m: Member) => Lookup(other, MemberName, m.name).None?
  }

  lemma OnlyInLookup(s: seq<Member>, other: seq<Member>, name: string)
    requires Distinct(s, MemberName)
    ensures Distinct(OnlyIn(s, other), MemberName)
    ensures Lookup(OnlyIn(s, other), MemberName, name)
         == if Lookup(other, MemberName, name).None? then Lookup(s, MemberName, name) else None
  {
    var only := OnlyIn(s, other);
    assert only == Filter(s, Missing(other)) by {
      FilterSame(s, (m: Member) => Lookup(other, MemberName, m.name).None?, Missing(other));
    }
    FilterDistinct(s, Missing(other), MemberName);
    LookupFinds(only, MemberName, name);
    LookupFinds(s, MemberName, name);
    match Lookup(s, MemberName, name)
    case Some(m) =>
      FilterMember(s, Missing(other), m);
      if m in only {
        LookupDistinct(only, MemberName, m);
      } else if Lookup(only, MemberName, name).Some? {
        SameNamed(s, other, m, Lookup(only, MemberName, name).value);
      }
    case None =>
      if Lookup(only, MemberName, name).Some? {
        FilterMember(s, Missing(other), Lookup(only, MemberName, name).value);
      }
  }

  lemma SameNamed(s: seq<Member>, other: seq<Member>, m: Member, n: Member)
    requires Distinct(s, MemberName) && m in s && n in Filter(s, Missing(other)) && m.name == n.name
    ensures m == n
  {
    FilterMember(s, Missing(other), n);
    LookupDistinct(s, MemberName, m);
    LookupDistinct(s, MemberName, n);
  }

  lemma GoneMemberSays(base: Symbol, head: Symbol, m: Member, t: Topic)
    requires t.path == head.Key() && t.member == Some(m.name)
    ensures On(GoneMember(base, head, Renames(base, head))(m), t)
         == if t.param.None? then GoneMemberReport(base, head, m, t.classification) else []
  {
    if t.param.None? {
      OnAlone(GoneMember(base, head, Renames(base, head))(m),
              if m.name in Renames(base, head) then Renamed else RemovedMember, t);
    } else {
      OnOthers(GoneMember(base, head, Renames(base, head))(m), t);
    }
  }

  lemma GoneMembersSay(base: Symbol, head: Symbol, t: Topic)
    requires Distinct(base.members, MemberName) && t.path == head.Key() && t.member.Some?
    ensures On(Collect(OnlyIn(base.members, head.members), GoneMember(base, head, Renames(base, head))), t)
         == match (Lookup(base.members, MemberName, t.member.value), Lookup(head.members, MemberName, t.member.value))
            case (Some(m), None) => if t.param.None? then GoneMemberReport(base, head, m, t.classification) else []
            case _ => []
  {
    var only, f := OnlyIn(base.members, head.members), GoneMember(base, head, Renames(base, head));
    var name := t.member.value;
    forall m: Member | MemberName(m) != name ensures On(f(m), t) == [] {
      OnOthers(f(m), t);
    }
    OnlyInLookup(base.members, head.members, name);
    OnCollectCalled(only, f, MemberName, name, t);
    LookupFinds(base.members, MemberName, name);
    match Lookup(only, MemberName, name)
    case Some(m) => GoneMemberSays(base, head, m, t);
    case None =>
  }

  lemma NewMemberSays(base: Symbol, head: Symbol, m: Member, t: Topic)
    requires t.path == head.Key() && t.member == Some(m.name)
    ensures On(NewMember(head, Renames(base, head))(m), t)
         == if t.param.None? then NewMemberReport(base, head, m, t.classification) else []
  {
    if t.param.None? {
      OnAlone(NewMember(head, Renames(base, head))(m), AddedMember, t);
    } else {
      OnOthers(NewMember(head, Renames(base, head))(m), t);
    }
  }

  lemma NewMembersSay(base: Symbol, head: Symbol, t: Topic)
    requires Distinct(head.members, MemberName) && t.path == head.Key() && t.member.Some?
    ensures On(Collect(OnlyIn(head.members, base.members), NewMember(head, Renames(base, head))), t)
         == match (Lookup(base.members, MemberName, t.member.value), Lookup(head.members, MemberName, t.member.value))
            case (None, Some(m)) => if t.param.None? then NewMemberReport(base, head, m, t.classification) else []
            case _ => []
  {
    var only, f := OnlyIn(head.members, base.members), NewMember(head, Renames(base, head));
    var name := t.member.value;
    forall m: Member | MemberName(m) != name ensures On(f(m), t) == [] {
      OnOthers(f(m), t);
    }
    OnlyInLookup(head.members, base.members, name);
    OnCollectCalled(only, f, MemberName, name, t);
    LookupFinds(head.members, MemberName, name);
    match Lookup(only, MemberName, name)
    case Some(m) => NewMemberSays(base, head, m, t);
    case None =>
  }

  function KeptRest(head: Symbol, m: Member, n: Member): seq<Change> {
    if n.kind == Attribute || m.kind == Attribute
    then ReturnChange(MemberSite(head, n), m, n) else ParamChanges(MemberSite(head, n), m, n)
  }

  lemma MemberKindSays(head: Symbol, m: Member, n: Member, t: Topic)
    requires AtSite(MemberSite(head, n), t)
    ensures On(MemberKindChange(head, m, n), t)
         == OneIf(t.param.None? && t.classification == ParamKindChanged && m.kind != n.kind,
                  Entry(MemberSite(head, n), ParamKindChanged, None, Equal, ANY,
                        Some(MemberKindText(m.kind)), Some(MemberKindText(n.kind))))
  {
    if t.param.None? {
      OnAlone(MemberKindChange(head, m, n), ParamKindChanged, t);
    } else {
      OnOthers(MemberKindChange(head, m, n), t);
    }
  }

  lemma KeptMemberSays(base: Symbol, head: Symbol, m: Member, n: Member, t: Topic)
    requires Distinct(m.params, ParamName) && Distinct(n.params, ParamName)
    requires Lookup(base.members, MemberName, n.name) == Some(m) && AtSite(MemberSite(head, n), t)
    ensures On(KeptMember(base, head)(n), t) == KeptMemberReport(head, m, n, t)
  {
    var site := MemberSite(head, n);
    assert KeptMember(base, head)(n) == MemberKindChange(head, m, n) + KeptRest(head, m, n);
    OnConcat(MemberKindChange(head, m, n), KeptRest(head, m, n), t);
    MemberKindSays(head, m, n, t);
    if n.kind != Attribute && m.kind != Attribute {
      SignatureAccounting(site, m, n, t);
    } else if t.param.None? {
      ResultSays(site, m, n, t);
    } else {
      OnOthers(ReturnChange(site, m, n), t);
    }
  }

  // A kept member says nothing of any other place.
  lemma KeptMemberSilent(base: Symbol, head: Symbol, n: Member, t: Topic)
    requires !AtSite(MemberSite(head, n), t)
    ensures On(KeptMember(base, head)(n), t) == []
  {
    match Lookup(base.members, MemberName, n.name)
    case None =>
    case Some(m) =>
      assert KeptMember(base, head)(n) == MemberKindChange(head, m, n) + KeptRest(head, m, n);
      OnConcat(MemberKindChange(head, m, n), KeptRest(head, m, n), t);
      OnOthers(MemberKindChange(head, m, n), t);
      if n.kind == Attribute || m.kind == Attribute {
        OnOthers(ReturnChange(MemberSite(head, n), m, n), t);
      } else {
        SignatureSilent(MemberSite(head, n), m, n, t);
      }
  }

  lemma KeptMembersSay(base: Symbol, head: Symbol, t: Topic)
    requires Distinct(base.members, MemberName) && Distinct(head.members, MemberName)
    requires forall m :: m in base.members || m in head.members ==> Distinct(m.params, ParamName)
    requires t.path == head.Key() && t.member.Some?
    ensures On(Collect(head.members, KeptMember(base, head)), t)
         == match (Lookup(base.members, MemberName, t.member.value), Lookup(head.members, MemberName, t.member.value))
            case (Some(m), Some(n)) => KeptMemberReport(head, m, n, t)
            case _ => []
  {
    var f, name := KeptMember(base, head), t.member.value;
    forall n | n in head.members && MemberName(n) != name ensures On(f(n), t) == [] {
      KeptMemberSilent(base, head, n, t);
    }
    OnCollectCalled(head.members, f, MemberName, name, t);
    LookupFinds(base.members, MemberName, name);
    LookupFinds(head.members, MemberName, name);
    match (Lookup(base.members, MemberName, name), Lookup(head.members, MemberName, name))
    case (Some(m), Some(n)) => KeptMemberSays(base, head, m, n, t);
    case _ =>
  }

  lemma MemberParts(base: Symbol, head: Symbol, t: Topic)
    ensures On(MemberChanges(base, head), t)
         == On(Collect(OnlyIn(base.members, head.members), GoneMember(base, head, Renames(base, head))), t)
            + On(Collect(OnlyIn(head.members, base.members), NewMember(head, Renames(base, head))), t)
            + On(Collect(head.members, KeptMember(base, head)), t)
  {
    var a := Collect(OnlyIn(base.members, head.members), GoneMember(base, head, Renames(base, head)));
    var b := Collect(OnlyIn(head.members, base.members), NewMember(head, Renames(base, head)));
    OnConcat(a + b, Collect(head.members, KeptMember(base, head)), t);
    OnConcat(a, b, t);
  }

  lemma MembersSilent(base: Symbol, head: Symbol, t: Topic)
    requires t.path != head.Key() || t.member.None?
    ensures On(MemberChanges(base, head), t) == []
  {
    var gone, extra := GoneMember(base, head, Renames(base, head)), NewMember(head, Renames(base, head));
    forall m: Member
      ensures On(gone(m), t) == [] && On(extra(m), t) == [] && On(KeptMember(base, head)(m), t) == []
    {
      OnOthers(gone(m), t);
      OnOthers(extra(m), t);
      KeptMemberSilent(base, head, m, t);
    }
    MemberParts(base, head, t);
    OnCollectNone(OnlyIn(base.members, head.members), gone, t);
    OnCollectNone(OnlyIn(head.members, base.members), extra, t);
    OnCollectNone(head.members, KeptMember(base, head), t);
  }

  // The report of a class's members, topic by topic.
  lemma MemberTopics(base: Symbol, head: Symbol, t: Topic)
    requires Distinct(base.members, MemberName) && Distinct(head.members, MemberName)
    requires forall m :: m in base.members || m in head.members ==> Distinct(m.params, ParamName)
    ensures On(MemberChanges(base, head), t) == MemberReport(base, head, t)
  {
    if t.path != head.Key() || t.member.None? {
      MembersSilent(base, head, t);
    } else {
      MemberParts(base, head, t);
      GoneMembersSay(base, head, t);
      NewMembersSay(base, head, t);
      KeptMembersSay(base, head, t);
      OneSpeaks(On(Collect(OnlyIn(base.members, head.members), GoneMember(base, head, Renames(base, head))), t),
                On(Collect(OnlyIn(head.members, base.members), NewMember(head, Renames(base, head))), t),
                On(Collect(head.members, KeptMember(base, head)), t));
    }
  }

  // ---------------------------------------------------------------- fields

  // The field's place among the positional ones, if it has one.
  function FieldPlace(fields: seq<Field>, name: string): Option<nat> {
    var names := PositionalFieldNames(fields);
    if name in names then Some(IndexOf(names, name)) else None
  }

  function PlaceWord(place: Option<nat>): string {
    match place case Some(k) => TextOps.ToDecimal(k) case None => "keyword-only"
  }

  function GoneFieldReport(base: Symbol, head: Symbol, cls: Classification): Field -> seq<Change> {
    (f: Field) =>
      OneIf(cls == FieldRemoved,
            Change(cls, head.Key(), Some(f.name), None, base.file, f.line, Equal, ANY, Some(f.annotation.text), None))
  }

  // A change of a field, reported in the head's file.
  function FieldEntry(head: Symbol, f: Field, cls: Classification, dir: Direction, needs: seq<Section>,
                      was: Option<string>, now: Option<string>): Change
  {
    Change(cls, head.Key(), Some(f.name), None, head.file, f.line, dir, needs, was, now)
  }

  function NewFieldReport(head: Symbol, cls: Classification): Field -> seq<Change> {
    (f: Field) =>
      OneIf(cls == FieldAdded,
            FieldEntry(head, f, cls, Equal, if f.default.None? then ANY else [], None, Some(f.annotation.text)))
  }

  function MovedReport(base: Symbol, head: Symbol, f: Field): seq<Change> {
    var was, now := FieldPlace(base.fields, f.name), FieldPlace(head.fields, f.name);
    OneIf(was.Some? && was != now,
          FieldEntry(head, f, FieldReordered, Equal, ANY, Some(PlaceWord(was)), Some(PlaceWord(now))))
  }

  function FieldTypeReport(head: Symbol, g: Field, f: Field): seq<Change> {
    var dir := DirectionOf(Some(g.annotation), Some(f.annotation));
    OneIf(dir != Equal,
          FieldEntry(head, f, FieldAnnotationChanged, dir,
                     if dir == Undecided then ALL else [Breaking, Consumer, Deprecated],
                     Some(g.annotation.text), Some(f.annotation.text)))
  }

  // A field that loses its default is treated like one whose default changes.
  function FieldDefaultReport(head: Symbol, g: Field, f: Field): seq<Change> {
    var decided := g.default.Some? && (f.default.Some? ==> f.default.value.literal) && g.default.value.literal;
    OneIf(DefaultOf(g.default) != DefaultOf(f.default),
          FieldEntry(head, f, DefaultChanged, Equal, if g.default.None? then [] else if decided then ANY else ALL,
                     DefaultOf(g.default), DefaultOf(f.default)))
  }

  // A field of both bodies: its place, its type, its default.
  function KeptFieldReport(base: Symbol, head: Symbol, g: Field, cls: Classification): Field -> seq<Change> {
    (f: Field) =>
      match cls
      case FieldReordered => MovedReport(base, head, f)
      case FieldAnnotationChanged => FieldTypeReport(head, g, f)
      case DefaultChanged => FieldDefaultReport(head, g, f)
      case _ => []
  }

  // A body may annotate one name more than once: each time is reported against the last in the base.
  function FieldReport(base: Symbol, head: Symbol, t: Topic): seq<Change> {
    if t.path != head.Key() || t.member.None? || t.param.Some? then []
    else
      var name, cls := t.member.value, t.classification;
      var was, now := Filter(base.fields, Called(FieldName, name)), Filter(head.fields, Called(FieldName, name));
      match (Lookup(base.fields, FieldName, name), Lookup(head.fields, FieldName, name))
      case (None, None) => []
      case (Some(_), None) => Collect(was, GoneFieldReport(base, head, cls))
      case (None, Some(_)) => Collect(now, NewFieldReport(head, cls))
      case (Some(g), Some(_)) => Collect(now, KeptFieldReport(base, head, g, cls))
  }

  // ---------------------------------------------------------------- fields: the proof

  ghost predicate AtField(head: Symbol, name: string, t: Topic) {
    t == Topic(head.Key(), Some(name), None, t.classification)
  }

  lemma MovedSays(base: Symbol, head: Symbol, f: Field)
    ensures OrderChange(base, head, f) == MovedReport(base, head, f)
  {
  }

  lemma FieldTypeSays(head: Symbol, g: Field, f: Field)
    ensures FieldTypeChange(head, g, f) == FieldTypeReport(head, g, f)
  {
  }

  lemma FieldDefaultSays(head: Symbol, g: Field, f: Field)
    ensures FieldDefaultChange(head, g, f) == FieldDefaultReport(head, g, f)
  {
  }

  lemma OneOfThreeFields(a: seq<Change>, b: seq<Change>, c: seq<Change>, t: Topic)
    requires ByItself(a, FieldReordered, t) && ByItself(b, FieldAnnotationChanged, t) && ByItself(c, DefaultChanged, t)
    ensures On(a + b + c, t)
         == match t.classification
            case FieldReordered => a
            case FieldAnnotationChanged => b
            case DefaultChanged => c
            case _ => []
  {
    OnConcat(a + b, c, t);
    OnConcat(a, b, t);
    OnAlone(a, FieldReordered, t);
    OnAlone(b, FieldAnnotationChanged, t);
    OnAlone(c, DefaultChanged, t);
  }

  lemma KeptFieldSays(base: Symbol, head: Symbol, g: Field, f: Field, t: Topic)
    requires Lookup(base.fields, FieldName, f.name) == Some(g) && AtField(head, f.name, t)
    ensures On(KeptField(base, head)(f), t) == KeptFieldReport(base, head, g, t.classification)(f)
  {
    MovedSays(base, head, f);
    FieldTypeSays(head, g, f);
    FieldDefaultSays(head, g, f);
    OneOfThreeFields(MovedReport(base, head, f), FieldTypeReport(head, g, f), FieldDefaultReport(head, g, f), t);
  }

  lemma FieldSilent(base: Symbol, head: Symbol, f: Field, t: Topic)
    requires !AtField(head, f.name, t)
    ensures On(RemovedField(base, head)(f), t) == [] && On(AddedField(base, head)(f), t) == []
    ensures On(KeptField(base, head)(f), t) == []
  {
    OnOthers(RemovedField(base, head)(f), t);
    OnOthers(AddedField(base, head)(f), t);
    KeptFieldSilent(base, head, f, t);
  }

  lemma KeptFieldSilent(base: Symbol, head: Symbol, f: Field, t: Topic)
    requires !AtField(head, f.name, t)
    ensures On(KeptField(base, head)(f), t) == []
  {
    match Lookup(base.fields, FieldName, f.name)
    case None =>
    case Some(g) =>
      ThreeSilent(OrderChange(base, head, f), FieldTypeChange(head, g, f), FieldDefaultChange(head, g, f), t);
  }

  lemma ThreeSilent(a: seq<Change>, b: seq<Change>, c: seq<Change>, t: Topic)
    requires forall x :: x in a || x in b || x in c ==> !Concerns(x, t)
    ensures On(a + b + c, t) == []
  {
    OnOthers(a + b + c, t);
  }

  // No element of that name, so nothing to say of one.
  lemma NoneCalled<T, U>(s: seq<T>, nameOf: T -> string, name: string, f: T -> seq<U>)
    requires Lookup(s, nameOf, name).None?
    ensures Collect(Filter(s, Called(nameOf, name)), f) == []
  {
    LookupFinds(s, nameOf, name);
    FilterNone(s, Called(nameOf, name));
  }

  lemma GoneFieldSays(base: Symbol, head: Symbol, x: Field, t: Topic)
    requires AtField(head, x.name, t)
    ensures On(RemovedField(base, head)(x), t)
         == if Lookup(head.fields, FieldName, x.name).Some? then []
            else GoneFieldReport(base, head, t.classification)(x)
  {
    if Lookup(head.fields, FieldName, x.name).None? {
      OnAlone(RemovedField(base, head)(x), FieldRemoved, t);
    }
  }

  lemma GoneFieldsSay(base: Symbol, head: Symbol, name: string, t: Topic)
    requires AtField(head, name, t)
    ensures On(Collect(base.fields, RemovedField(base, head)), t)
         == match (Lookup(base.fields, FieldName, name), Lookup(head.fields, FieldName, name))
            case (Some(_), None) =>
              Collect(Filter(base.fields, Called(FieldName, name)), GoneFieldReport(base, head, t.classification))
            case _ => []
  {
    var f, report := RemovedField(base, head), GoneFieldReport(base, head, t.classification);
    forall x: Field
      ensures On(f(x), t) ==
              if Called(FieldName, name)(x) && Lookup(head.fields, FieldName, name).None? then report(x) else []
    {
      if x.name == name {
        GoneFieldSays(base, head, x, t);
      } else {
        FieldSilent(base, head, x, t);
      }
    }
    if Lookup(head.fields, FieldName, name).Some? {
      OnCollectNone(base.fields, f, t);
    } else {
      OnCollect(base.fields, f, Called(FieldName, name), report, t);
      if Lookup(base.fields, FieldName, name).None? {
        NoneCalled(base.fields, FieldName, name, report);
      }
    }
  }

  lemma NewFieldSays(base: Symbol, head: Symbol, x: Field, t: Topic)
    requires AtField(head, x.name, t)
    ensures On(AddedField(base, head)(x), t)
         == if Lookup(base.fields, FieldName, x.name).Some? then [] else NewFieldReport(head, t.classification)(x)
  {
    if Lookup(base.fields, FieldName, x.name).None? {
      OnAlone(AddedField(base, head)(x), FieldAdded, t);
    }
  }

  lemma NewFieldsSay(base: Symbol, head: Symbol, name: string, t: Topic)
    requires AtField(head, name, t)
    ensures On(Collect(head.fields, AddedField(base, head)), t)
         == match (Lookup(base.fields, FieldName, name), Lookup(head.fields, FieldName, name))
            case (None, Some(_)) =>
              Collect(Filter(head.fields, Called(FieldName, name)), NewFieldReport(head, t.classification))
            case _ => []
  {
    var f, report := AddedField(base, head), NewFieldReport(head, t.classification);
    forall x: Field
      ensures On(f(x), t) ==
              if Called(FieldName, name)(x) && Lookup(base.fields, FieldName, name).None? then report(x) else []
    {
      if x.name == name {
        NewFieldSays(base, head, x, t);
      } else {
        FieldSilent(base, head, x, t);
      }
    }
    if Lookup(base.fields, FieldName, name).Some? {
      OnCollectNone(head.fields, f, t);
    } else {
      OnCollect(head.fields, f, Called(FieldName, name), report, t);
      if Lookup(head.fields, FieldName, name).None? {
        NoneCalled(head.fields, FieldName, name, report);
      }
    }
  }

  lemma KeptFieldsSay(base: Symbol, head: Symbol, name: string, t: Topic)
    requires AtField(head, name, t)
    ensures On(Collect(head.fields, KeptField(base, head)), t)
         == match (Lookup(base.fields, FieldName, name), Lookup(head.fields, FieldName, name))
            case (Some(g), Some(_)) =>
              Collect(Filter(head.fields, Called(FieldName, name)), KeptFieldReport(base, head, g, t.classification))
            case _ => []
  {
    match Lookup(base.fields, FieldName, name)
    case None => KeptNone(base, head, name, t);
    case Some(g) => KeptOf(base, head, name, g, t);
  }

  lemma KeptNone(base: Symbol, head: Symbol, name: string, t: Topic)
    requires AtField(head, name, t) && Lookup(base.fields, FieldName, name).None?
    ensures On(Collect(head.fields, KeptField(base, head)), t) == []
  {
    forall x: Field ensures On(KeptField(base, head)(x), t) == [] {
      if x.name != name {
        FieldSilent(base, head, x, t);
      }
    }
    OnCollectNone(head.fields, KeptField(base, head), t);
  }

  lemma KeptOf(base: Symbol, head: Symbol, name: string, g: Field, t: Topic)
    requires AtField(head, name, t) && Lookup(base.fields, FieldName, name) == Some(g)
    ensures On(Collect(head.fields, KeptField(base, head)), t)
         == if Lookup(head.fields, FieldName, name).None? then []
            else Collect(Filter(head.fields, Called(FieldName, name)),
                         KeptFieldReport(base, head, g, t.classification))
  {
    var f, report := KeptField(base, head), KeptFieldReport(base, head, g, t.classification);
    forall x: Field ensures On(f(x), t) == if Called(FieldName, name)(x) then report(x) else [] {
      if x.name != name {
        FieldSilent(base, head, x, t);
      } else {
        KeptFieldSays(base, head, g, x, t);
      }
    }
    OnCollect(head.fields, f, Called(FieldName, name), report, t);
    if Lookup(head.fields, FieldName, name).None? {
      NoneCalled(head.fields, FieldName, name, report);
    }
  }

  lemma FieldParts(base: Symbol, head: Symbol, t: Topic)
    ensures On(FieldChanges(base, head), t)
         == On(Collect(base.fields, RemovedField(base, head)), t) + On(Collect(head.fields, AddedField(base, head)), t)
            + On(Collect(head.fields, KeptField(base, head)), t)
  {
    var a, b := Collect(base.fields, RemovedField(base, head)), Collect(head.fields, AddedField(base, head));
    OnConcat(a + b, Collect(head.fields, KeptField(base, head)), t);
    OnConcat(a, b, t);
  }

  // The report of a class's fields, topic by topic, for every body.
  lemma FieldTopics(base: Symbol, head: Symbol, t: Topic)
    ensures On(FieldChanges(base, head), t) == FieldReport(base, head, t)
  {
    FieldParts(base, head, t);
    if t.path != head.Key() || t.member.None? || t.param.Some? {
      forall f: Field
        ensures On(RemovedField(base, head)(f), t) == [] && On(AddedField(base, head)(f), t) == []
        ensures On(KeptField(base, head)(f), t) == []
      {
        FieldSilent(base, head, f, t);
      }
      OnCollectNone(base.fields, RemovedField(base, head), t);
      OnCollectNone(head.fields, AddedField(base, head), t);
      OnCollectNone(head.fields, KeptField(base, head), t);
    } else {
      FieldsOfName(base, head, t.member.value, t);
    }
  }

  lemma FieldsOfName(base: Symbol, head: Symbol, name: string, t: Topic)
    requires AtField(head, name, t)
    ensures On(FieldChanges(base, head), t) == FieldReport(base, head, t)
  {
    FieldParts(base, head, t);
    GoneFieldsSay(base, head, name, t);
    NewFieldsSay(base, head, name, t);
    KeptFieldsSay(base, head, name, t);
    OneSpeaks(On(Collect(base.fields, RemovedField(base, head)), t),
              On(Collect(head.fields, AddedField(base, head)), t),
              On(Collect(head.fields, KeptField(base, head)), t));
  }

  // ---------------------------------------------------------------- enums

  function GoneEnumReport(base: Symbol, head: Symbol, cls: Classification): EnumMember -> seq<Change> {
    (m: EnumMember) =>
      OneIf(cls == EnumMemberRemoved,
            Change(cls, head.Key(), Some(m.name), None, base.file, m.line, Equal, ANY, Some(m.value), None))
  }

  function EnumEntryReport(head: Symbol, o: Option<EnumMember>, cls: Classification): EnumMember -> seq<Change> {
    (m: EnumMember) =>
      match o
      case None =>
        OneIf(cls == EnumMemberAdded,
              Change(cls, head.Key(), Some(m.name), None, head.file, m.line, Equal, [], None, Some(m.value)))
      case Some(was) =>
        OneIf(cls == EnumValueChanged && was.value != m.value,
              Change(cls, head.Key(), Some(m.name), None, head.file, m.line, Equal, ANY,
                     Some(was.value), Some(m.value)))
  }

  function EnumReport(base: Symbol, head: Symbol, t: Topic): seq<Change> {
    if t.path != head.Key() || t.member.None? || t.param.Some? then []
    else
      var name, cls := t.member.value, t.classification;
      if Lookup(head.enumMembers, EnumName, name).None?
      then Collect(Filter(base.enumMembers, Called(EnumName, name)), GoneEnumReport(base, head, cls))
      else Collect(Filter(head.enumMembers, Called(EnumName, name)),
                   EnumEntryReport(head, Lookup(base.enumMembers, EnumName, name), cls))
  }

  lemma EnumSilent(base: Symbol, head: Symbol, m: EnumMember, t: Topic)
    requires !AtField(head, m.name, t)
    ensures On(RemovedEnum(base, head)(m), t) == [] && On(KeptEnum(base, head)(m), t) == []
  {
    OnOthers(RemovedEnum(base, head)(m), t);
    OnOthers(KeptEnum(base, head)(m), t);
  }

  lemma GoneEnumSays(base: Symbol, head: Symbol, m: EnumMember, t: Topic)
    requires AtField(head, m.name, t)
    ensures On(RemovedEnum(base, head)(m), t)
         == if Lookup(head.enumMembers, EnumName, m.name).Some? then []
            else GoneEnumReport(base, head, t.classification)(m)
  {
    if Lookup(head.enumMembers, EnumName, m.name).None? {
      assert RemovedEnum(base, head)(m) == GoneEnumReport(base, head, EnumMemberRemoved)(m);
      OnAlone(GoneEnumReport(base, head, EnumMemberRemoved)(m), EnumMemberRemoved, t);
    }
  }

  lemma GoneEnumsSay(base: Symbol, head: Symbol, name: string, t: Topic)
    requires AtField(head, name, t)
    ensures On(Collect(base.enumMembers, RemovedEnum(base, head)), t)
         == if Lookup(head.enumMembers, EnumName, name).Some? then []
            else Collect(Filter(base.enumMembers, Called(EnumName, name)), GoneEnumReport(base, head, t.classification))
  {
    var f, report := RemovedEnum(base, head), GoneEnumReport(base, head, t.classification);
    forall x: EnumMember
      ensures On(f(x), t) == if Called(EnumName, name)(x) && Lookup(head.enumMembers, EnumName, name).None?
                             then report(x) else []
    {
      if x.name == name {
        GoneEnumSays(base, head, x, t);
      } else {
        EnumSilent(base, head, x, t);
      }
    }
    if Lookup(head.enumMembers, EnumName, name).Some? {
      OnCollectNone(base.enumMembers, f, t);
    } else {
      OnCollect(base.enumMembers, f, Called(EnumName, name), report, t);
    }
  }

  lemma KeptEnumSays(base: Symbol, head: Symbol, m: EnumMember, t: Topic)
    requires AtField(head, m.name, t)
    ensures On(KeptEnum(base, head)(m), t)
         == EnumEntryReport(head, Lookup(base.enumMembers, EnumName, m.name), t.classification)(m)
  {
    var o := Lookup(base.enumMembers, EnumName, m.name);
    var cls := if o.None? then EnumMemberAdded else EnumValueChanged;
    assert KeptEnum(base, head)(m) == EnumEntryReport(head, o, cls)(m);
    OnAlone(EnumEntryReport(head, o, cls)(m), cls, t);
  }

  lemma KeptEnumsSay(base: Symbol, head: Symbol, name: string, t: Topic)
    requires AtField(head, name, t)
    ensures On(Collect(head.enumMembers, KeptEnum(base, head)), t)
         == Collect(Filter(head.enumMembers, Called(EnumName, name)),
                    EnumEntryReport(head, Lookup(base.enumMembers, EnumName, name), t.classification))
  {
    var f, o := KeptEnum(base, head), Lookup(base.enumMembers, EnumName, name);
    var report := EnumEntryReport(head, o, t.classification);
    forall x: EnumMember ensures On(f(x), t) == if Called(EnumName, name)(x) then report(x) else [] {
      if x.name == name {
        KeptEnumSays(base, head, x, t);
      } else {
        EnumSilent(base, head, x, t);
      }
    }
    OnCollect(head.enumMembers, f, Called(EnumName, name), report, t);
  }

  // The report of an enum's members, topic by topic, for every body.
  lemma EnumTopics(base: Symbol, head: Symbol, t: Topic)
    ensures On(EnumChanges(base, head), t) == EnumReport(base, head, t)
  {
    OnConcat(Collect(base.enumMembers, RemovedEnum(base, head)), Collect(head.enumMembers, KeptEnum(base, head)), t);
    if t.path != head.Key() || t.member.None? || t.param.Some? {
      forall m: EnumMember ensures On(RemovedEnum(base, head)(m), t) == [] && On(KeptEnum(base, head)(m), t) == [] {
        EnumSilent(base, head, m, t);
      }
      OnCollectNone(base.enumMembers, RemovedEnum(base, head), t);
      OnCollectNone(head.enumMembers, KeptEnum(base, head), t);
    } else {
      var name := t.member.value;
      GoneEnumsSay(base, head, name, t);
      KeptEnumsSay(base, head, name, t);
      if Lookup(head.enumMembers, EnumName, name).None? {
        NoneCalled(head.enumMembers, EnumName, name,
                   EnumEntryReport(head, Lookup(base.enumMembers, EnumName, name), t.classification));
      }
    }
  }

  // ---------------------------------------------------------------- classes

  // A change of the symbol itself.
  function OwnEntry(head: Symbol, cls: Classification, dir: Direction, needs: seq<Section>,
                    was: Option<string>, now: Option<string>): Change
  {
    Change(cls, head.Key(), None, None, head.file, head.line, dir, needs, was, now)
  }

  function BaseAdded(head: Symbol): string -> Change {
    (b: string) => OwnEntry(head, AddedMember, Equal, [Breaking], None, Some(b))
  }

  function BaseRemoved(head: Symbol): string -> Change {
    (b: string) => OwnEntry(head, RemovedMember, Equal, ANY, Some(b), None)
  }

  function KindReport(base: Symbol, head: Symbol): seq<Change> {
    OneIf(base.kind != head.kind,
          OwnEntry(head, ParamKindChanged, Equal, ALL,
                   Some(SymbolKindText(base.kind)), Some(SymbolKindText(head.kind))))
  }

  function FrozenReport(base: Symbol, head: Symbol): seq<Change> {
    OneIf(base.frozen != head.frozen,
          OwnEntry(head, ModelFrozenChanged, Equal, if head.frozen then ANY else [],
                   Some(BoolText(base.frozen)), Some(BoolText(head.frozen))))
  }

  function DeprecatedReport(base: Symbol, head: Symbol): seq<Change> {
    OneIf(head.deprecated && !base.deprecated,
          OwnEntry(head, DeprecatedMarkerAdded, Equal, [Deprecated], None, None))
  }

  function ClassReport(base: Symbol, head: Symbol, t: Topic): seq<Change> {
    var protocols := base.kind == ProtocolClass && head.kind == ProtocolClass;
    if t != Topic(head.Key(), None, None, t.classification) then []
    else
      match t.classification
      case ParamKindChanged => KindReport(base, head)
      case ModelFrozenChanged => FrozenReport(base, head)
      case DeprecatedMarkerAdded => DeprecatedReport(base, head)
      case AddedMember => if protocols then Map(SortedMinus(head.bases, base.bases), BaseAdded(head)) else []
      case RemovedMember => if protocols then Map(SortedMinus(base.bases, head.bases), BaseRemoved(head)) else []
      case _ => []
  }

  // The bases of one side that the other lacks: each once, in text order.
  lemma SortedMinusHolds(s: seq<string>, t: seq<string>)
    ensures forall b :: b in SortedMinus(s, t) <==> b in s && b !in t
    ensures forall i, j :: 0 <= i < j < |SortedMinus(s, t)| ==> SortedMinus(s, t)[i] != SortedMinus(s, t)[j]
    ensures Sorted(SortedMinus(s, t), TextLeq)
  {
    var lacking := Filter(s, (x: string) => x !in t);
    var once := Dedup(lacking);
    DedupHolds(lacking);
    TextsSort(once);
    forall b ensures b in SortedMinus(s, t) <==> b in s && b !in t {
      SameMembers(SortedMinus(s, t), once, b);
      FilterMember(s, (x: string) => x !in t, b);
    }
    OnceMore(once, SortedMinus(s, t));
  }

  lemma {:induction false} DedupHolds(s: seq<string>)
    ensures forall b :: b in Dedup(s) <==> b in s
    ensures forall i, j :: 0 <= i < j < |Dedup(s)| ==> Dedup(s)[i] != Dedup(s)[j]
  {
    if s != [] {
      DedupHolds(s[..|s| - 1]);
      assert s == s[..|s| - 1] + [s[|s| - 1]];
    }
  }

  lemma TextsSort(s: seq<string>)
    ensures Sorted(StableSort(s, TextLeq), TextLeq)
    ensures multiset(StableSort(s, TextLeq)) == multiset(s)
  {
    var all := Elements(s);
    forall a, b | a in all && b in all ensures TextLeq(a, b) || TextLeq(b, a) {
      TextLeqTotal(a, b);
    }
    forall a, b, c | a in all && b in all && c in all && TextLeq(a, b) && TextLeq(b, c) ensures TextLeq(a, c) {
      TextLeqTransitive(a, b, c);
    }
    StableSortSorts(s, TextLeq, all);
  }

  // A rearrangement of texts without repetitions has none either.
  lemma OnceMore(a: seq<string>, b: seq<string>)
    requires multiset(a) == multiset(b)
    requires forall i, j :: 0 <= i < j < |a| ==> a[i] != a[j]
    ensures forall i, j :: 0 <= i < j < |b| ==> b[i] != b[j]
  {
    forall i, j | 0 <= i < j < |b| ensures b[i] != b[j] {
      if b[i] == b[j] {
        SplitAt(b, i);
        assert (b[..i] + b[i + 1..])[j - 1] == b[j];
        assert multiset(b)[b[i]] >= 2;
        OnceInMultiset(a, b[i]);
      }
    }
  }

  lemma {:induction false} OnceInMultiset(a: seq<string>, x: string)
    requires forall i, j :: 0 <= i < j < |a| ==> a[i] != a[j]
    ensures multiset(a)[x] <= 1
  {
    if a != [] {
      SplitLast(a);
      var front, last := a[..|a| - 1], a[|a| - 1];
      OnceInMultiset(front, x);
      forall y | y in front ensures y != last {
        var i :| 0 <= i < |front| && front[i] == y;
        assert a[i] == y;
      }
      assert last !in front && last !in multiset(front);
    }
  }

  // ---------------------------------------------------------------- classes: the proof

  lemma {:induction false} CollectOnes<T, U>(s: seq<T>, f: T -> seq<U>, g: T -> U)
    requires forall x :: f(x) == [g(x)]
    ensures Collect(s, f) == Map(s, g)
  {
    if s != [] {
      var front, last := s[..|s| - 1], s[|s| - 1];
      CollectOnes(front, f, g);
      MapSnoc(front, last, g);
      assert s == front + [last];
    }
  }

  // Changes of one classification about the topic's place.
  lemma OnAllAlike(changes: seq<Change>, cls: Classification, t: Topic)
    requires forall c :: c in changes ==> c.classification == cls && Concerns(c, t)
    ensures On(changes, t) == if cls == t.classification then changes else []
  {
    if cls == t.classification {
      FilterAll(changes, About(t));
    } else {
      OnNone(changes, t);
    }
  }

  lemma BasesSay(base: Symbol, head: Symbol, t: Topic)
    requires t == Topic(head.Key(), None, None, t.classification)
    ensures On(BaseChanges(base, head), t)
         == if t.classification == AddedMember || t.classification == RemovedMember
            then ClassReport(base, head, t) else []
  {
    if base.kind == ProtocolClass && head.kind == ProtocolClass {
      var gained, lost := SortedMinus(head.bases, base.bases), SortedMinus(base.bases, head.bases);
      CollectOnes(gained, BaseGained(head), BaseAdded(head));
      CollectOnes(lost, BaseLost(head), BaseRemoved(head));
      OnConcat(Map(gained, BaseAdded(head)), Map(lost, BaseRemoved(head)), t);
      OnAllAlike(Map(gained, BaseAdded(head)), AddedMember, t);
      OnAllAlike(Map(lost, BaseRemoved(head)), RemovedMember, t);
    }
  }

  lemma SymbolKindSays(base: Symbol, head: Symbol, t: Topic)
    requires t == Topic(head.Key(), None, None, t.classification)
    ensures On(KindOfSymbolChange(base, head), t)
         == if t.classification == ParamKindChanged then KindReport(base, head) else []
  {
    assert KindOfSymbolChange(base, head) == KindReport(base, head);
    OnAlone(KindReport(base, head), ParamKindChanged, t);
  }

  lemma FrozenSays(base: Symbol, head: Symbol, t: Topic)
    requires t == Topic(head.Key(), None, None, t.classification)
    ensures On(FrozenChange(base, head), t)
         == if t.classification == ModelFrozenChanged then FrozenReport(base, head) else []
  {
    assert FrozenChange(base, head) == FrozenReport(base, head);
    OnAlone(FrozenReport(base, head), ModelFrozenChanged, t);
  }

  lemma DeprecatedSays(base: Symbol, head: Symbol, t: Topic)
    requires t == Topic(head.Key(), None, None, t.classification)
    ensures On(SymbolMarkerChange(base, head), t)
         == if t.classification == DeprecatedMarkerAdded then DeprecatedReport(base, head) else []
  {
    assert SymbolMarkerChange(base, head) == DeprecatedReport(base, head);
    OnAlone(DeprecatedReport(base, head), DeprecatedMarkerAdded, t);
  }

  lemma BasesSilent(base: Symbol, head: Symbol, t: Topic)
    requires t != Topic(head.Key(), None, None, t.classification)
    ensures On(BaseChanges(base, head), t) == []
  {
    var gained, lost := SortedMinus(head.bases, base.bases), SortedMinus(base.bases, head.bases);
    forall b: string ensures On(BaseGained(head)(b), t) == [] && On(BaseLost(head)(b), t) == [] {
      OnOthers(BaseGained(head)(b), t);
      OnOthers(BaseLost(head)(b), t);
    }
    OnCollectNone(gained, BaseGained(head), t);
    OnCollectNone(lost, BaseLost(head), t);
    OnConcat(Collect(gained, BaseGained(head)), Collect(lost, BaseLost(head)), t);
  }

  function Statement(base: Symbol, head: Symbol): seq<Change> {
    KindOfSymbolChange(base, head) + FrozenChange(base, head) + SymbolMarkerChange(base, head) + BaseChanges(base, head)
  }

  lemma StatementParts(base: Symbol, head: Symbol, t: Topic)
    ensures On(Statement(base, head), t)
         == On(KindOfSymbolChange(base, head), t) + On(FrozenChange(base, head), t)
            + On(SymbolMarkerChange(base, head), t) + On(BaseChanges(base, head), t)
  {
    var a, b, c := KindOfSymbolChange(base, head), FrozenChange(base, head), SymbolMarkerChange(base, head);
    OnConcat(a + b + c, BaseChanges(base, head), t);
    OnConcat(a + b, c, t);
    OnConcat(a, b, t);
  }

  lemma StatementSilent(base: Symbol, head: Symbol, t: Topic)
    requires t != Topic(head.Key(), None, None, t.classification)
    ensures On(Statement(base, head), t) == []
  {
    StatementParts(base, head, t);
    OnOthers(KindOfSymbolChange(base, head), t);
    OnOthers(FrozenChange(base, head), t);
    OnOthers(SymbolMarkerChange(base, head), t);
    BasesSilent(base, head, t);
  }

  lemma StatementTopics(base: Symbol, head: Symbol, t: Topic)
    ensures On(Statement(base, head), t) == ClassReport(base, head, t)
  {
    if t == Topic(head.Key(), None, None, t.classification) {
      StatementParts(base, head, t);
      SymbolKindSays(base, head, t);
      FrozenSays(base, head, t);
      DeprecatedSays(base, head, t);
      BasesSay(base, head, t);
      OneOfFour(On(KindOfSymbolChange(base, head), t), On(FrozenChange(base, head), t),
                On(SymbolMarkerChange(base, head), t), On(BaseChanges(base, head), t),
                KindReport(base, head), FrozenReport(base, head), DeprecatedReport(base, head),
                ClassReport(base, head, t), t.classification);
    } else {
      StatementSilent(base, head, t);
    }
  }

  // At most one of four parts speaks, by the classification.
  lemma OneOfFour(a: seq<Change>, b: seq<Change>, c: seq<Change>, d: seq<Change>, kind: seq<Change>,
                  frozen: seq<Change>, marker: seq<Change>, bases: seq<Change>, cls: Classification)
    requires a == if cls == ParamKindChanged then kind else []
    requires b == if cls == ModelFrozenChanged then frozen else []
    requires c == if cls == DeprecatedMarkerAdded then marker else []
    requires d == if cls == AddedMember || cls == RemovedMember then bases else []
    ensures a + b + c + d ==
            match cls
            case ParamKindChanged => kind
            case ModelFrozenChanged => frozen
            case DeprecatedMarkerAdded => marker
            case AddedMember => bases
            case RemovedMember => bases
            case _ => []
  {
  }

  // ---------------------------------------------------------------- symbols

  function AliasReport(base: Symbol, head: Symbol, t: Topic): seq<Change> {
    var dir := DirectionOf(base.value, head.value);
    OneIf(dir != Equal && t == Topic(head.Key(), None, None, AliasChanged),
          OwnEntry(head, AliasChanged, dir, ALL, TextOf(base.value), TextOf(head.value)))
  }

  // What the report of a symbol of both surfaces says on a topic.
  function SymbolReport(base: Symbol, head: Symbol, t: Topic): seq<Change> {
    if base.kind == Alias && head.kind == Alias then AliasReport(base, head, t)
    else if head.kind == FunctionSymbol && base.signature.Some? && head.signature.Some?
    then SignatureReport(Site(head, None, head.signature.value.line, OwnerCallable),
                         base.signature.value, head.signature.value, t)
    else ClassReport(base, head, t) + MemberReport(base, head, t) + FieldReport(base, head, t)
         + EnumReport(base, head, t)
  }

  // What the report of two surfaces says on a topic.
  function SurfaceReport(base: Surface, head: Surface, t: Topic): seq<Change> {
    var own := t.member.None? && t.param.None?;
    match (Lookup(base.symbols, SymbolName, t.path), Lookup(head.symbols, SymbolName, t.path))
    case (None, None) => []
    case (Some(s), None) => OneIf(own && t.classification == RemovedMember,
                                  OwnEntry(s, RemovedMember, Equal, ANY, None, None))
    case (None, Some(s)) => OneIf(own && t.classification == AddedMember,
                                  OwnEntry(s, AddedMember, Equal, [], None, None))
    case (Some(was), Some(s)) => SymbolReport(was, s, t)
  }

  lemma AliasSays(base: Symbol, head: Symbol, t: Topic)
    ensures On(AliasChange(base, head), t) == AliasReport(base, head, t)
  {
    if t == Topic(head.Key(), None, None, t.classification) {
      OnAlone(AliasChange(base, head), AliasChanged, t);
    } else {
      OnOthers(AliasChange(base, head), t);
    }
  }

  lemma ClassParts(base: Symbol, head: Symbol, t: Topic)
    requires !(base.kind == Alias && head.kind == Alias)
    requires !(head.kind == FunctionSymbol && base.signature.Some? && head.signature.Some?)
    ensures On(SymbolChanges(base, head), t)
         == On(Statement(base, head), t) + On(MemberChanges(base, head), t) + On(FieldChanges(base, head), t)
            + On(EnumChanges(base, head), t)
  {
    var a, b, c := Statement(base, head), MemberChanges(base, head), FieldChanges(base, head);
    OnConcat(a + b + c, EnumChanges(base, head), t);
    OnConcat(a + b, c, t);
    OnConcat(a, b, t);
  }

  // Signatures and class bodies name nothing twice where the language forbids it.
  ghost predicate Unambiguous(s: Symbol) {
    && Distinct(s.members, MemberName)
    && (forall m :: m in s.members ==> Distinct(m.params, ParamName))
    && (s.signature.Some? ==> Distinct(s.signature.value.params, ParamName))
  }

  lemma SymbolTopics(base: Symbol, head: Symbol, t: Topic)
    requires Unambiguous(base) && Unambiguous(head)
    ensures On(SymbolChanges(base, head), t) == SymbolReport(base, head, t)
  {
    if base.kind == Alias && head.kind == Alias {
      AliasSays(base, head, t);
    } else if head.kind == FunctionSymbol && base.signature.Some? && head.signature.Some? {
      SignatureAccounting(Site(head, None, head.signature.value.line, OwnerCallable),
                          base.signature.value, head.signature.value, t);
    } else {
      ClassParts(base, head, t);
      StatementTopics(base, head, t);
      MemberTopics(base, head, t);
      FieldTopics(base, head, t);
      EnumTopics(base, head, t);
    }
  }

  // A symbol's changes say nothing of another path.
  lemma SymbolSilent(base: Symbol, head: Symbol, t: Topic)
    requires t.path != head.Key()
    ensures On(SymbolChanges(base, head), t) == []
  {
    if base.kind == Alias && head.kind == Alias {
      AliasSays(base, head, t);
    } else if head.kind == FunctionSymbol && base.signature.Some? && head.signature.Some? {
      SignatureSilent(Site(head, None, head.signature.value.line, OwnerCallable),
                      base.signature.value, head.signature.value, t);
    } else {
      ClassParts(base, head, t);
      StatementTopics(base, head, t);
      MembersSilent(base, head, t);
      FieldTopics(base, head, t);
      EnumTopics(base, head, t);
    }
  }

  // ---------------------------------------------------------------- surfaces

  lemma GoneSymbolSays(base: Surface, head: Surface, s: Symbol, t: Topic)
    requires Lookup(base.symbols, SymbolName, t.path) == Some(s) && s.Key() == t.path
    ensures On(RemovedSymbol(head)(s), t)
         == if Lookup(head.symbols, SymbolName, t.path).None? then SurfaceReport(base, head, t) else []
  {
    if t.member.None? && t.param.None? {
      OnAlone(RemovedSymbol(head)(s), RemovedMember, t);
    } else {
      OnOthers(RemovedSymbol(head)(s), t);
    }
  }

  lemma GoneSymbolsSay(base: Surface, head: Surface, t: Topic)
    requires Distinct(base.symbols, SymbolName)
    ensures On(Collect(base.symbols, RemovedSymbol(head)), t)
         == if Lookup(head.symbols, SymbolName, t.path).None? then SurfaceReport(base, head, t) else []
  {
    forall s: Symbol | SymbolName(s) != t.path ensures On(RemovedSymbol(head)(s), t) == [] {
      OnOthers(RemovedSymbol(head)(s), t);
    }
    OnCollectCalled(base.symbols, RemovedSymbol(head), SymbolName, t.path, t);
    LookupFinds(base.symbols, SymbolName, t.path);
    match Lookup(base.symbols, SymbolName, t.path)
    case Some(s) => GoneSymbolSays(base, head, s, t);
    case None =>
  }

  lemma HeadSymbolSays(base: Surface, head: Surface, s: Symbol, t: Topic)
    requires forall x :: x in base.symbols ==> Unambiguous(x)
    requires Unambiguous(s) && Lookup(head.symbols, SymbolName, t.path) == Some(s) && s.Key() == t.path
    ensures On(HeadSymbol(base)(s), t) == SurfaceReport(base, head, t)
  {
    LookupFinds(base.symbols, SymbolName, t.path);
    match Lookup(base.symbols, SymbolName, t.path)
    case Some(was) => SymbolTopics(was, s, t);
    case None =>
      if t.member.None? && t.param.None? {
        OnAlone(HeadSymbol(base)(s), AddedMember, t);
      } else {
        OnOthers(HeadSymbol(base)(s), t);
      }
  }

  lemma HeadSymbolSilent(base: Surface, s: Symbol, t: Topic)
    requires s.Key() != t.path
    ensures On(HeadSymbol(base)(s), t) == []
  {
    match Lookup(base.symbols, SymbolName, s.Key())
    case Some(was) => SymbolSilent(was, s, t);
    case None => OnOthers(HeadSymbol(base)(s), t);
  }

  ghost predicate UnambiguousSurface(surface: Surface) {
    Distinct(surface.symbols, SymbolName) && forall s :: s in surface.symbols ==> Unambiguous(s)
  }

  lemma HeadSymbolsSay(base: Surface, head: Surface, t: Topic)
    requires UnambiguousSurface(base) && UnambiguousSurface(head)
    ensures On(Collect(head.symbols, HeadSymbol(base)), t)
         == if Lookup(head.symbols, SymbolName, t.path).Some? then SurfaceReport(base, head, t) else []
  {
    forall s: Symbol | SymbolName(s) != t.path ensures On(HeadSymbol(base)(s), t) == [] {
      HeadSymbolSilent(base, s, t);
    }
    OnCollectCalled(head.symbols, HeadSymbol(base), SymbolName, t.path, t);
    LookupFinds(head.symbols, SymbolName, t.path);
    match Lookup(head.symbols, SymbolName, t.path)
    case Some(s) => HeadSymbolSays(base, head, s, t);
    case None =>
  }

  // On every topic, the differ collects what the reference definitions say, and nothing else.
  lemma SurfaceTopics(base: Surface, head: Surface, t: Topic)
    requires UnambiguousSurface(base) && UnambiguousSurface(head)
    ensures On(SurfaceChanges(base, head), t) == SurfaceReport(base, head, t)
  {
    OnConcat(Collect(base.symbols, RemovedSymbol(head)), Collect(head.symbols, HeadSymbol(base)), t);
    GoneSymbolsSay(base, head, t);
    HeadSymbolsSay(base, head, t);
    OneSpeaks(On(Collect(base.symbols, RemovedSymbol(head)), t), On(Collect(head.symbols, HeadSymbol(base)), t), []);
  }

  ghost predicate Says(report: seq<Change>, base: Surface, head: Surface, t: Topic) {
    multiset(On(report, t)) == multiset(SurfaceReport(base, head, t))
  }

  // On every topic, the report holds what the reference definitions say, and nothing else.
  ghost predicate Accounted(report: seq<Change>, base: Surface, head: Surface) {
    forall t :: Says(report, base, head, t)
  }

  // A rearrangement of what the differ collects is accounted for on every topic.
  lemma ReportAccounts(report: seq<Change>, base: Surface, head: Surface)
    requires multiset(report) == multiset(SurfaceChanges(base, head))
    requires UnambiguousSurface(base) && UnambiguousSurface(head)
    ensures Accounted(report, base, head)
  {
    forall t ensures Says(report, base, head, t) {
      SurfaceTopics(base, head, t);
      FilterPermutes(report, SurfaceChanges(base, head), About(t));
    }
  }
}
