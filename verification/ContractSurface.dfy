// The contract surface of a source tree, and the differences between two of them.
// Annotations carry the set of union members their text parses to, and defaults carry
// whether their text is a literal: reading source text is not modelled.
module ContractSurface {
  import opened Common
  import opened Sorting
  import TextOps

  datatype ParamKind = PositionalOnly | Positional | VarPositional | KeywordOnly | VarKeyword

  datatype Annotation = Annotation(text: string, union: set<string>)

  datatype DefaultText = DefaultText(text: string, literal: bool)

  datatype Param = Param(
    name: string, kind: ParamKind, annotation: Option<Annotation>, default: Option<DefaultText>)

  datatype MemberKind = Method | Property | Attribute | Function

  datatype Member = Member(
    name: string, kind: MemberKind, line: nat, params: seq<Param>,
    result: Option<Annotation>, deprecated: bool)

  datatype Field = Field(
    name: string, annotation: Annotation, default: Option<DefaultText>, keywordOnly: bool, line: nat)

  datatype EnumMember = EnumMember(name: string, value: string, line: nat)

  datatype SymbolKind =
    | ProtocolClass | DataClass | NamedTuple | EnumClass | PlainClass | FunctionSymbol | Alias

  datatype Symbol = Symbol(
    moduleName: string, name: string, kind: SymbolKind, file: string, line: nat,
    bases: seq<string>, frozen: bool, deprecated: bool,
    members: seq<Member>, fields: seq<Field>, enumMembers: seq<EnumMember>,
    value: Option<Annotation>, signature: Option<Member>)
  {
    function Key(): string {
      moduleName + ":" + name
    }
  }

  datatype Surface = Surface(symbols: seq<Symbol>)

  // ---------------------------------------------------------------- names

  const ParamName := (p: Param) => p.name
  const MemberName := (m: Member) => m.name
  const FieldName := (f: Field) => f.name
  const EnumName := (m: EnumMember) => m.name
  const SymbolName := (s: Symbol) => s.Key()

  // {nameOf(x): x for x in s}.get(name)
  function Lookup<T>(s: seq<T>, nameOf: T -> string, name: string): Option<T> {
    if s == [] then None
    else if nameOf(s[|s| - 1]) == name then Some(s[|s| - 1])
    else Lookup(s[..|s| - 1], nameOf, name)
  }

  ghost predicate Distinct<T>(s: seq<T>, nameOf: T -> string) {
    forall i, j :: 0 <= i < j < |s| ==> nameOf(s[i]) != nameOf(s[j])
  }

  lemma {:induction false} LookupFinds<T>(s: seq<T>, nameOf: T -> string, name: string)
    ensures Lookup(s, nameOf, name).Some? <==> exists x :: x in s && nameOf(x) == name
    ensures Lookup(s, nameOf, name).Some? ==>
              Lookup(s, nameOf, name).value in s && nameOf(Lookup(s, nameOf, name).value) == name
  {
    if s != [] {
      LookupFinds(s[..|s| - 1], nameOf, name);
      assert s[|s| - 1] in s;
      forall x | x in s && nameOf(x) == name ensures Lookup(s, nameOf, name).Some? {
        assert s == s[..|s| - 1] + [s[|s| - 1]];
      }
    }
  }

  lemma {:induction false} LookupDistinct<T>(s: seq<T>, nameOf: T -> string, x: T)
    requires Distinct(s, nameOf) && x in s
    ensures Lookup(s, nameOf, nameOf(x)) == Some(x)
  {
    var i :| 0 <= i < |s| && s[i] == x;
    if i < |s| - 1 {
      assert x == s[..|s| - 1][i];
      LookupDistinct(s[..|s| - 1], nameOf, x);
    }
  }

  lemma {:induction false} FilterDistinct<T>(s: seq<T>, keep: T -> bool, nameOf: T -> string)
    requires Distinct(s, nameOf)
    ensures Distinct(Filter(s, keep), nameOf)
  {
    if s != [] {
      var front, last := s[..|s| - 1], s[|s| - 1];
      FilterDistinct(front, keep, nameOf);
      forall i | 0 <= i < |Filter(front, keep)| ensures nameOf(Filter(front, keep)[i]) != nameOf(last) {
        FilterMember(front, keep, Filter(front, keep)[i]);
        var j :| 0 <= j < |front| && front[j] == Filter(front, keep)[i];
        assert s[j] == front[j];
      }
    }
  }

  // ---------------------------------------------------------------- annotations

  datatype Direction = Equal | Widened | Narrowed | Undecided

  const TOP_TYPES := {"Any", "typing.Any", "object", "typing_extensions.Any"}

  // A missing annotation reads as Any.
  function UnionOf(a: Option<Annotation>): set<string> {
    if a.None? || a.value.text == "" then {"Any"} else a.value.union
  }

  predicate Top(union: set<string>) {
    union * TOP_TYPES != {}
  }

  function DirectionOf(was: Option<Annotation>, now: Option<Annotation>): Direction {
    var a, b := UnionOf(was), UnionOf(now);
    if a == b then Equal
    else if Top(a) && !Top(b) then Narrowed
    else if Top(b) && !Top(a) then Widened
    else if a < b then Widened
    else if b < a then Narrowed
    else Undecided
  }

  // ---------------------------------------------------------------- classifications

  datatype Classification =
    | AddedMember | RemovedMember | Renamed
    | ParamAddedRequired | ParamAddedKeywordOnly | ParamAddedDefaulted | ParamRemoved
    | ParamKindChanged | ParamAnnotationChanged | ReturnAnnotationChanged | DefaultChanged
    | FieldAdded | FieldRemoved | FieldReordered | FieldAnnotationChanged | ModelFrozenChanged
    | EnumMemberAdded | EnumMemberRemoved | EnumValueChanged
    | AliasChanged | DeprecatedMarkerAdded

  datatype Section = Breaking | Consumer | Deprecated | Changed

  const ANY_BREAK := [Breaking, Consumer]
  const ANNOUNCED := [Breaking, Consumer, Deprecated]
  const UNKNOWN := [Breaking, Consumer, Deprecated, Changed]

  // Whose contract the symbol states: a protocol binds its implementers, anything else its callers.
  datatype Owner = OwnerProtocol | OwnerCallable

  datatype Extra =
    | Plain | KindOfSymbol | DefaultAdded | DefaultDropped | NotLiteral | FromAny | Required
    | Frozen | Unfrozen

  // Where the changelog may announce a change; [] asks for no entry.
  function Needs(cls: Classification, owner: Owner, dir: Direction, extra: Extra): seq<Section> {
    match cls
    case ParamKindChanged => if extra == KindOfSymbol then UNKNOWN else ANY_BREAK
    case RemovedMember | Renamed | ParamRemoved => ANY_BREAK
    case FieldRemoved | FieldReordered | EnumMemberRemoved | EnumValueChanged => ANY_BREAK
    case AddedMember => if owner == OwnerProtocol then [Breaking] else []
    case ParamAddedRequired => ANY_BREAK
    case ParamAddedKeywordOnly | ParamAddedDefaulted => if owner == OwnerProtocol then [Breaking] else []
    case DefaultChanged =>
      if extra == DefaultAdded then (if owner == OwnerProtocol then [Breaking] else [])
      else if extra == NotLiteral then UNKNOWN
      else ANY_BREAK
    case ParamAnnotationChanged =>
      if dir == Narrowed && extra == FromAny && owner != OwnerProtocol then UNKNOWN
      else if dir == Narrowed then ANNOUNCED
      else if dir == Undecided then UNKNOWN
      else []
    case ReturnAnnotationChanged =>
      if dir == Undecided then UNKNOWN
      else if dir == Widened || (dir == Narrowed && owner == OwnerProtocol) then ANNOUNCED
      else []
    case FieldAnnotationChanged => if dir == Undecided then UNKNOWN else ANNOUNCED
    case FieldAdded => if extra == Required then ANY_BREAK else []
    case ModelFrozenChanged => if extra == Frozen then ANY_BREAK else []
    case AliasChanged => UNKNOWN
    case DeprecatedMarkerAdded => [Deprecated]
    case EnumMemberAdded => []
  }

  datatype Change = Change(
    classification: Classification, path: string, member: Option<string>, param: Option<string>,
    file: string, line: nat, dir: Direction, needs: seq<Section>,
    was: Option<string>, now: Option<string>)

  function NewChange(cls: Classification, sym: Symbol, member: Option<string>, line: nat,
                     owner: Owner := OwnerCallable, dir: Direction := Equal, extra: Extra := Plain,
                     was: Option<string> := None, now: Option<string> := None,
                     file: string := sym.file, param: Option<string> := None): Change
  {
    Change(cls, sym.Key(), member, param, file, line, dir, Needs(cls, owner, dir, extra), was, now)
  }

  // No change needs a changelog entry: the differ reports nothing breaking.
  ghost predicate Quiet(changes: seq<Change>) {
    forall c :: c in changes ==> c.needs == []
  }

  function Text(a: Option<Annotation>): Option<string> {
    if a.Some? then Some(a.value.text) else None
  }

  function TextOfDefault(d: Option<DefaultText>): Option<string> {
    if d.Some? then Some(d.value.text) else None
  }

  predicate Literal(d: Option<DefaultText>) {
    d.Some? ==> d.value.literal
  }

  // ---------------------------------------------------------------- signatures

  // The source's words for the kinds, as a change of kind quotes them.
  function ParamKindText(k: ParamKind): string {
    match k
    case PositionalOnly => "positional-only"
    case Positional => "positional"
    case VarPositional => "var-positional"
    case KeywordOnly => "keyword-only"
    case VarKeyword => "var-keyword"
  }

  function MemberKindText(k: MemberKind): string {
    match k
    case Method => "method"
    case Property => "property"
    case Attribute => "attribute"
    case Function => "function"
  }

  function SymbolKindText(k: SymbolKind): string {
    match k
    case ProtocolClass => "protocol"
    case DataClass => "dataclass"
    case NamedTuple => "namedtuple"
    case EnumClass => "enum"
    case PlainClass => "class"
    case FunctionSymbol => "function"
    case Alias => "alias"
  }

  // str(b)
  function BoolText(b: bool): string {
    if b then "True" else "False"
  }

  // Where the changes of one signature are reported.
  datatype Site = Site(sym: Symbol, member: Option<string>, line: nat, owner: Owner)

  predicate IsPositional(k: ParamKind) {
    k == PositionalOnly || k == Positional
  }

  function PositionalParams(params: seq<Param>): seq<Param> {
    Filter(params, (p: Param) => IsPositional(p.kind))
  }

  function PositionalNames(params: seq<Param>): seq<string> {
    Map(PositionalParams(params), ParamName)
  }

  // s.index(x)
  function IndexOf<T(==)>(s: seq<T>, x: T): (i: nat)
    requires x in s
    ensures i < |s| && s[i] == x && x !in s[..i]
  {
    if s[0] == x then 0 else 1 + IndexOf(s[1..], x)
  }

  function RemovedParam(site: Site, now: Member): Param -> seq<Change> {
    (p: Param) =>
      if Lookup(now.params, ParamName, p.name).Some? then []
      else [NewChange(ParamRemoved, site.sym, site.member, site.line, owner := site.owner,
                      param := Some(p.name), was := Text(p.annotation))]
  }

  function AddedClass(p: Param): Classification {
    if p.kind == VarPositional || p.kind == VarKeyword then ParamAddedDefaulted
    else if p.default.None? then ParamAddedRequired
    else if p.kind == KeywordOnly then ParamAddedKeywordOnly
    else ParamAddedDefaulted
  }

  function AddedParam(site: Site, was: Member): Param -> seq<Change> {
    (p: Param) =>
      if Lookup(was.params, ParamName, p.name).Some? then []
      else [NewChange(AddedClass(p), site.sym, site.member, site.line, owner := site.owner,
                      param := Some(p.name), now := Text(p.annotation))]
  }

  predicate Moved(was: Member, now: Member, name: string) {
    var oldPos, newPos := PositionalNames(was.params), PositionalNames(now.params);
    name in oldPos && name in newPos && IndexOf(oldPos, name) != IndexOf(newPos, name)
  }

  function DefaultExtra(q: Option<DefaultText>, p: Option<DefaultText>): Extra {
    if q.None? then DefaultAdded
    else if p.None? then DefaultDropped
    else if Literal(q) && Literal(p) then Plain
    else NotLiteral
  }

  function KeptParam(site: Site, was: Member, now: Member): Param -> seq<Change> {
    (p: Param) =>
      match Lookup(was.params, ParamName, p.name)
      case None => []
      case Some(q) => KindChange(site, was, now, q, p) + AnnotationChange(site, q, p) + DefaultChange(site, q, p)
  }

  function KindChange(site: Site, was: Member, now: Member, q: Param, p: Param): seq<Change> {
    if q.kind != p.kind || Moved(was, now, p.name)
    then [NewChange(ParamKindChanged, site.sym, site.member, site.line, owner := site.owner,
                    param := Some(p.name),
                    was := Some(ParamKindText(q.kind)), now := Some(ParamKindText(p.kind)))]
    else []
  }

  function AnnotationChange(site: Site, q: Param, p: Param): seq<Change> {
    var dir := DirectionOf(q.annotation, p.annotation);
    if dir == Equal then []
    else [NewChange(ParamAnnotationChanged, site.sym, site.member, site.line, owner := site.owner, dir := dir,
                    extra := if Top(UnionOf(q.annotation)) then FromAny else Plain,
                    param := Some(p.name), was := Text(q.annotation), now := Text(p.annotation))]
  }

  function DefaultChange(site: Site, q: Param, p: Param): seq<Change> {
    if TextOfDefault(q.default) == TextOfDefault(p.default) then []
    else [NewChange(DefaultChanged, site.sym, site.member, site.line, owner := site.owner,
                    extra := DefaultExtra(q.default, p.default), param := Some(p.name),
                    was := TextOfDefault(q.default), now := TextOfDefault(p.default))]
  }

  function ReturnChange(site: Site, was: Member, now: Member): seq<Change> {
    var dir := DirectionOf(was.result, now.result);
    if dir == Equal then []
    else [NewChange(ReturnAnnotationChanged, site.sym, site.member, site.line, owner := site.owner, dir := dir,
                    was := Text(was.result), now := Text(now.result))]
  }

  function MarkerChange(site: Site, was: Member, now: Member): seq<Change> {
    if now.deprecated && !was.deprecated
    then [NewChange(DeprecatedMarkerAdded, site.sym, site.member, site.line, owner := site.owner)]
    else []
  }

  // What _diff_params yields.
  function ParamChanges(site: Site, was: Member, now: Member): seq<Change> {
    Collect(was.params, RemovedParam(site, now))
    + Collect(now.params, AddedParam(site, was))
    + Collect(now.params, KeptParam(site, was, now))
    + ReturnChange(site, was, now)
    + MarkerChange(site, was, now)
  }

  // ---------------------------------------------------------------- members

  function OwnerOf(sym: Symbol): Owner {
    if sym.kind == ProtocolClass then OwnerProtocol else OwnerCallable
  }

  function ParamText(p: Param): string {
    if p.annotation.Some? && p.annotation.value.text != ""
    then p.name + ": " + p.annotation.value.text else p.name
  }

  function SignatureText(m: Member): string {
    "(" + TextOps.Join(Map(m.params, ParamText), ", ") + ") -> "
    + (if m.result.Some? then m.result.value.text else "None")
  }

  // The members of s that other has no member of the same name for.
  function OnlyIn(s: seq<Member>, other: seq<Member>): seq<Member> {
    Filter(s, (m: Member) => Lookup(other, MemberName, m.name).None?)
  }

  function Twins(added: seq<Member>, m: Member): seq<Member> {
    Filter(added, (a: Member) => SignatureText(a) == SignatureText(m))
  }

  // The greedy rename map over the removed members, in order.
  function RenameMap(removed: seq<Member>, added: seq<Member>): map<string, string> {
    if removed == [] then map[]
    else
      var before, m := RenameMap(removed[..|removed| - 1], added), removed[|removed| - 1];
      var twins := Twins(added, m);
      if |twins| == 1 && twins[0].name !in before.Values then before[m.name := twins[0].name] else before
  }

  function LineOf(members: seq<Member>, name: string): nat {
    match Lookup(members, MemberName, name)
    case Some(m) => m.line
    case None => 0
  }

  function GoneMember(base: Symbol, head: Symbol, renamed: map<string, string>): Member -> seq<Change> {
    (m: Member) =>
      if m.name in renamed
      then [NewChange(Renamed, head, Some(m.name), LineOf(head.members, renamed[m.name]), owner := OwnerOf(head),
                      was := Some(m.name), now := Some(renamed[m.name]))]
      else [NewChange(RemovedMember, head, Some(m.name), m.line, owner := OwnerOf(head), file := base.file,
                      was := Some(SignatureText(m)))]
  }

  function NewMember(head: Symbol, renamed: map<string, string>): Member -> seq<Change> {
    (m: Member) =>
      if m.name in renamed.Values then []
      else [NewChange(AddedMember, head, Some(m.name), m.line, owner := OwnerOf(head), now := Some(SignatureText(m)))]
  }

  function MemberKindChange(head: Symbol, was: Member, m: Member): seq<Change> {
    if was.kind == m.kind then []
    else [NewChange(ParamKindChanged, head, Some(m.name), m.line, owner := OwnerOf(head),
                    was := Some(MemberKindText(was.kind)), now := Some(MemberKindText(m.kind)))]
  }

  function KeptMember(base: Symbol, head: Symbol): Member -> seq<Change> {
    (m: Member) =>
      match Lookup(base.members, MemberName, m.name)
      case None => []
      case Some(was) =>
        MemberKindChange(head, was, m)
        + var site := Site(head, Some(m.name), m.line, OwnerOf(head));
          if m.kind == Attribute || was.kind == Attribute
          then ReturnChange(site, was, m)
          else ParamChanges(site, was, m)
  }

  // What _diff_members yields.
  function MemberChanges(base: Symbol, head: Symbol): seq<Change> {
    var removed, added := OnlyIn(base.members, head.members), OnlyIn(head.members, base.members);
    var renamed := RenameMap(removed, added);
    Collect(removed, GoneMember(base, head, renamed))
    + Collect(added, NewMember(head, renamed))
    + Collect(head.members, KeptMember(base, head))
  }

  // ---------------------------------------------------------------- fields

  function PositionalFields(fields: seq<Field>): seq<Field> {
    Filter(fields, (f: Field) => !f.keywordOnly)
  }

  function PositionalFieldNames(fields: seq<Field>): seq<string> {
    Map(PositionalFields(fields), FieldName)
  }

  function RemovedField(base: Symbol, head: Symbol): Field -> seq<Change> {
    (f: Field) =>
      if Lookup(head.fields, FieldName, f.name).Some? then []
      else [NewChange(FieldRemoved, head, Some(f.name), f.line, file := base.file, was := Some(f.annotation.text))]
  }

  function AddedField(base: Symbol, head: Symbol): Field -> seq<Change> {
    (f: Field) =>
      if Lookup(base.fields, FieldName, f.name).Some? then []
      else [NewChange(FieldAdded, head, Some(f.name), f.line,
                      extra := if f.default.None? then Required else Plain, now := Some(f.annotation.text))]
  }

  // The field's place among the positional ones, in the report's words.
  function PlaceText(fields: seq<Field>, name: string): string {
    var names := PositionalFieldNames(fields);
    if name in names then TextOps.ToDecimal(IndexOf(names, name)) else "keyword-only"
  }

  predicate Reordered(base: Symbol, head: Symbol, name: string) {
    var oldPos, newPos := PositionalFieldNames(base.fields), PositionalFieldNames(head.fields);
    name in oldPos && (name !in newPos || IndexOf(oldPos, name) != IndexOf(newPos, name))
  }

  function FieldDefaultExtra(g: Option<DefaultText>, f: Option<DefaultText>): Extra {
    if g.None? then DefaultAdded
    else if Literal(g) && Literal(f) then Plain
    else NotLiteral
  }

  function KeptField(base: Symbol, head: Symbol): Field -> seq<Change> {
    (f: Field) =>
      match Lookup(base.fields, FieldName, f.name)
      case None => []
      case Some(g) => OrderChange(base, head, f) + FieldTypeChange(head, g, f) + FieldDefaultChange(head, g, f)
  }

  function OrderChange(base: Symbol, head: Symbol, f: Field): seq<Change> {
    if !Reordered(base, head, f.name) then []
    else [NewChange(FieldReordered, head, Some(f.name), f.line,
                    was := Some(PlaceText(base.fields, f.name)), now := Some(PlaceText(head.fields, f.name)))]
  }

  function FieldTypeChange(head: Symbol, g: Field, f: Field): seq<Change> {
    var dir := DirectionOf(Some(g.annotation), Some(f.annotation));
    if dir == Equal then []
    else [NewChange(FieldAnnotationChanged, head, Some(f.name), f.line, dir := dir,
                    was := Some(g.annotation.text), now := Some(f.annotation.text))]
  }

  function FieldDefaultChange(head: Symbol, g: Field, f: Field): seq<Change> {
    if TextOfDefault(g.default) == TextOfDefault(f.default) then []
    else [NewChange(DefaultChanged, head, Some(f.name), f.line, extra := FieldDefaultExtra(g.default, f.default),
                    was := TextOfDefault(g.default), now := TextOfDefault(f.default))]
  }

  // What _diff_fields yields.
  function FieldChanges(base: Symbol, head: Symbol): seq<Change> {
    Collect(base.fields, RemovedField(base, head))
    + Collect(head.fields, AddedField(base, head))
    + Collect(head.fields, KeptField(base, head))
  }

  // ---------------------------------------------------------------- enums

  function RemovedEnum(base: Symbol, head: Symbol): EnumMember -> seq<Change> {
    (m: EnumMember) =>
      if Lookup(head.enumMembers, EnumName, m.name).Some? then []
      else [NewChange(EnumMemberRemoved, head, Some(m.name), m.line, file := base.file, was := Some(m.value))]
  }

  function KeptEnum(base: Symbol, head: Symbol): EnumMember -> seq<Change> {
    (m: EnumMember) =>
      match Lookup(base.enumMembers, EnumName, m.name)
      case None => [NewChange(EnumMemberAdded, head, Some(m.name), m.line, now := Some(m.value))]
      case Some(o) =>
        if o.value == m.value then []
        else [NewChange(EnumValueChanged, head, Some(m.name), m.line, was := Some(o.value), now := Some(m.value))]
  }

  // What _diff_enum yields.
  function EnumChanges(base: Symbol, head: Symbol): seq<Change> {
    Collect(base.enumMembers, RemovedEnum(base, head)) + Collect(head.enumMembers, KeptEnum(base, head))
  }

  // ---------------------------------------------------------------- symbols

  // sorted(set(s) - set(t))
  function SortedMinus(s: seq<string>, t: seq<string>): seq<string> {
    StableSort(Dedup(Filter(s, (x: string) => x !in t)), TextLeq)
  }

  function Dedup(s: seq<string>): seq<string> {
    if s == [] then []
    else
      var front := Dedup(s[..|s| - 1]);
      if s[|s| - 1] in front then front else front + [s[|s| - 1]]
  }

  function BaseGained(head: Symbol): string -> seq<Change> {
    (b: string) => [NewChange(AddedMember, head, None, head.line, owner := OwnerOf(head), now := Some(b))]
  }

  function BaseLost(head: Symbol): string -> seq<Change> {
    (b: string) => [NewChange(RemovedMember, head, None, head.line, owner := OwnerOf(head), was := Some(b))]
  }

  function KindOfSymbolChange(base: Symbol, head: Symbol): seq<Change> {
    if base.kind == head.kind then []
    else [NewChange(ParamKindChanged, head, None, head.line, extra := KindOfSymbol,
                    was := Some(SymbolKindText(base.kind)), now := Some(SymbolKindText(head.kind)))]
  }

  function FrozenChange(base: Symbol, head: Symbol): seq<Change> {
    if base.frozen == head.frozen then []
    else [NewChange(ModelFrozenChanged, head, None, head.line, extra := if head.frozen then Frozen else Unfrozen,
                    was := Some(BoolText(base.frozen)), now := Some(BoolText(head.frozen)))]
  }

  function SymbolMarkerChange(base: Symbol, head: Symbol): seq<Change> {
    if head.deprecated && !base.deprecated then [NewChange(DeprecatedMarkerAdded, head, None, head.line)] else []
  }

  function BaseChanges(base: Symbol, head: Symbol): seq<Change> {
    if head.kind == ProtocolClass && base.kind == ProtocolClass
    then Collect(SortedMinus(head.bases, base.bases), BaseGained(head))
         + Collect(SortedMinus(base.bases, head.bases), BaseLost(head))
    else []
  }

  function AliasChange(base: Symbol, head: Symbol): seq<Change> {
    var dir := DirectionOf(base.value, head.value);
    if dir == Equal then []
    else [NewChange(AliasChanged, head, None, head.line, dir := dir,
                    was := Text(base.value), now := Text(head.value))]
  }

  // What _diff_symbol yields.
  function SymbolChanges(base: Symbol, head: Symbol): seq<Change> {
    if head.kind == Alias && base.kind == Alias then AliasChange(base, head)
    else if head.kind == FunctionSymbol && base.signature.Some? && head.signature.Some?
    then ParamChanges(Site(head, None, head.signature.value.line, OwnerCallable),
                      base.signature.value, head.signature.value)
    else
      KindOfSymbolChange(base, head) + FrozenChange(base, head) + SymbolMarkerChange(base, head)
      + BaseChanges(base, head) + MemberChanges(base, head) + FieldChanges(base, head) + EnumChanges(base, head)
  }

  function RemovedSymbol(head: Surface): Symbol -> seq<Change> {
    (s: Symbol) =>
      if Lookup(head.symbols, SymbolName, s.Key()).Some? then []
      else [NewChange(RemovedMember, s, None, s.line)]
  }

  function HeadSymbol(base: Surface): Symbol -> seq<Change> {
    (s: Symbol) =>
      match Lookup(base.symbols, SymbolName, s.Key())
      case None => [NewChange(AddedMember, s, None, s.line)]
      case Some(was) => SymbolChanges(was, s)
  }

  // The changes diff collects, before it sorts them.
  function SurfaceChanges(base: Surface, head: Surface): seq<Change> {
    Collect(base.symbols, RemovedSymbol(head)) + Collect(head.symbols, HeadSymbol(base))
  }
}
