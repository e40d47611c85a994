// The generators of the differ, loop by loop, against what each yields; and the ordered report.
module Differ {
  import opened Common
  import opened Permutations
  import opened Sorting
  import opened ReportAccounting
  import opened SurfaceSoundness
  import opened ContractSurface
  import TextOps

  // for x in s: yield from f(x)
  method YieldFrom<T, U>(s: seq<T>, f: T -> seq<U>) returns (out: seq<U>)
    ensures out == Collect(s, f)
  {
    out := [];
    for i := 0 to |s|
      invariant out == Collect(s[..i], f)
    {
      TakeOneMore(s, i);
      out := out + f(s[i]);
    }
    assert s[..|s|] == s;
  }

  // The rename dictionary, filled while walking the removed members.
  method FindRenames(removed: seq<Member>, added: seq<Member>) returns (renamed: map<string, string>)
    ensures renamed == RenameMap(removed, added)
  {
    renamed := map[];
    for i := 0 to |removed|
      invariant renamed == RenameMap(removed[..i], added)
    {
      TakeOneMore(removed, i);
      var twins := Twins(added, removed[i]);
      if |twins| == 1 && twins[0].name !in renamed.Values {
        renamed := renamed[removed[i].name := twins[0].name];
      }
    }
    assert removed[..|removed|] == removed;
  }

  // {nameOf(x): x for x in s}
  method ByName<T>(s: seq<T>, nameOf: T -> string) returns (entries: map<string, T>)
    ensures Dictionary(entries, s, nameOf)
  {
    entries := map[];
    for i := 0 to |s|
      invariant Dictionary(entries, s[..i], nameOf)
    {
      ghost var before := entries;
      entries := entries[nameOf(s[i]) := s[i]];
      OneMoreEntry(before, s, nameOf, i);
    }
    assert s[..|s|] == s;
  }

  ghost predicate Entry<T>(entries: map<string, T>, s: seq<T>, nameOf: T -> string, name: string) {
    match Lookup(s, nameOf, name)
    case Some(x) => name in entries && entries[name] == x
    case None => name !in entries
  }

  // The map answers as looking the list up does.
  ghost predicate Dictionary<T>(entries: map<string, T>, s: seq<T>, nameOf: T -> string) {
    forall name {:trigger Entry(entries, s, nameOf, name)} :: Entry(entries, s, nameOf, name)
  }

  lemma OneMoreEntry<T>(entries: map<string, T>, s: seq<T>, nameOf: T -> string, i: nat)
    requires i < |s| && Dictionary(entries, s[..i], nameOf)
    ensures Dictionary(entries[nameOf(s[i]) := s[i]], s[..i + 1], nameOf)
  {
    TakeOneMore(s, i);
    var more, longer := entries[nameOf(s[i]) := s[i]], s[..i + 1];
    forall name ensures Entry(more, longer, nameOf, name) {
      assert Entry(entries, s[..i], nameOf, name);
    }
  }

  // ---------------------------------------------------------------- signatures

  method DiffParams(site: Site, was: Member, now: Member) returns (changes: seq<Change>)
    ensures changes == ParamChanges(site, was, now)
  {
    var oldBy := ByName(was.params, ParamName);
    var newBy := ByName(now.params, ParamName);
    var gone := RemovedParams(site, was, now, newBy);
    var added := AddedParams(site, was, now, oldBy);
    var kept := KeptParams(site, was, now, oldBy);
    changes := gone + added + kept;
    var dir := DirectionOf(was.result, now.result);
    if dir != Equal {
      changes := changes + [NewChange(ReturnAnnotationChanged, site.sym, site.member, site.line, owner := site.owner,
                                      dir := dir, was := Text(was.result), now := Text(now.result))];
    }
    if now.deprecated && !was.deprecated {
      changes := changes + [NewChange(DeprecatedMarkerAdded, site.sym, site.member, site.line, owner := site.owner)];
    }
  }

  method RemovedParams(site: Site, was: Member, now: Member, newBy: map<string, Param>) returns (changes: seq<Change>)
    requires Dictionary(newBy, now.params, ParamName)
    ensures changes == Collect(was.params, RemovedParam(site, now))
  {
    changes := [];
    for i := 0 to |was.params|
      invariant changes == Collect(was.params[..i], RemovedParam(site, now))
    {
      TakeOneMore(was.params, i);
      var p := was.params[i];
      assert Entry(newBy, now.params, ParamName, p.name);
      if p.name !in newBy {
        changes := changes + [NewChange(ParamRemoved, site.sym, site.member, site.line, owner := site.owner,
                                        param := Some(p.name), was := Text(p.annotation))];
      }
    }
    assert was.params[..|was.params|] == was.params;
  }

  method AddedParams(site: Site, was: Member, now: Member, oldBy: map<string, Param>) returns (changes: seq<Change>)
    requires Dictionary(oldBy, was.params, ParamName)
    ensures changes == Collect(now.params, AddedParam(site, was))
  {
    changes := [];
    for i := 0 to |now.params|
      invariant changes == Collect(now.params[..i], AddedParam(site, was))
    {
      TakeOneMore(now.params, i);
      var p := now.params[i];
      assert Entry(oldBy, was.params, ParamName, p.name);
      if p.name in oldBy {
        continue;
      }
      var cls := ParamAddedDefaulted;
      if p.kind != VarPositional && p.kind != VarKeyword {
        if p.default.None? {
          cls := ParamAddedRequired;
        } else if p.kind == KeywordOnly {
          cls := ParamAddedKeywordOnly;
        }
      }
      changes := changes + [NewChange(cls, site.sym, site.member, site.line, owner := site.owner,
                                      param := Some(p.name), now := Text(p.annotation))];
    }
    assert now.params[..|now.params|] == now.params;
  }

  method KeptParams(site: Site, was: Member, now: Member, oldBy: map<string, Param>) returns (changes: seq<Change>)
    requires Dictionary(oldBy, was.params, ParamName)
    ensures changes == Collect(now.params, KeptParam(site, was, now))
  {
    changes := [];
    var oldPos, newPos := PositionalNames(was.params), PositionalNames(now.params);
    for i := 0 to |now.params|
      invariant changes == Collect(now.params[..i], KeptParam(site, was, now))
    {
      TakeOneMore(now.params, i);
      var p := now.params[i];
      assert Entry(oldBy, was.params, ParamName, p.name);
      if p.name !in oldBy {
        continue;
      }
      var moved := p.name in oldPos && p.name in newPos && IndexOf(oldPos, p.name) != IndexOf(newPos, p.name);
      var more := DiffParam(site, oldBy[p.name], p, moved, was, now);
      assert more == KeptParam(site, was, now)(p);
      changes := changes + more;
    }
    assert now.params[..|now.params|] == now.params;
  }

  // One parameter that both signatures have.
  method DiffParam(site: Site, q: Param, p: Param, moved: bool, ghost was: Member, ghost now: Member)
    returns (changes: seq<Change>)
    requires moved == Moved(was, now, p.name)
    ensures changes == KindChange(site, was, now, q, p) + AnnotationChange(site, q, p) + DefaultChange(site, q, p)
  {
    changes := [];
    if q.kind != p.kind || moved {
      changes := changes + [NewChange(ParamKindChanged, site.sym, site.member, site.line, owner := site.owner,
                                      param := Some(p.name), was := Some(ParamKindText(q.kind)),
                                      now := Some(ParamKindText(p.kind)))];
    }
    var dir := DirectionOf(q.annotation, p.annotation);
    if dir != Equal {
      var fromAny := if Top(UnionOf(q.annotation)) then FromAny else Plain;
      changes := changes + [NewChange(ParamAnnotationChanged, site.sym, site.member, site.line, owner := site.owner,
                                      dir := dir, extra := fromAny, param := Some(p.name),
                                      was := Text(q.annotation), now := Text(p.annotation))];
    }
    if TextOfDefault(q.default) != TextOfDefault(p.default) {
      changes := changes + [NewChange(DefaultChanged, site.sym, site.member, site.line, owner := site.owner,
                                      extra := DefaultExtra(q.default, p.default), param := Some(p.name),
                                      was := TextOfDefault(q.default), now := TextOfDefault(p.default))];
    }
  }

  // ---------------------------------------------------------------- members

  method DiffMembers(base: Symbol, head: Symbol) returns (changes: seq<Change>)
    ensures changes == MemberChanges(base, head)
  {
    var removed, added := OnlyIn(base.members, head.members), OnlyIn(head.members, base.members);
    var renamed := FindRenames(removed, added);
    var gone := YieldFrom(removed, GoneMember(base, head, renamed));
    var extra := YieldFrom(added, NewMember(head, renamed));
    var kept := KeptMembers(base, head);
    changes := gone + extra + kept;
  }

  method KeptMembers(base: Symbol, head: Symbol) returns (changes: seq<Change>)
    ensures changes == Collect(head.members, KeptMember(base, head))
  {
    changes := [];
    for i := 0 to |head.members|
      invariant changes == Collect(head.members[..i], KeptMember(base, head))
    {
      TakeOneMore(head.members, i);
      var was := Lookup(base.members, MemberName, head.members[i].name);
      if was.Some? {
        var more := DiffMember(base, head, was.value, head.members[i]);
        changes := changes + more;
      }
    }
    assert head.members[..|head.members|] == head.members;
  }

  // One member that both classes have.
  method DiffMember(base: Symbol, head: Symbol, was: Member, now: Member) returns (changes: seq<Change>)
    requires Lookup(base.members, MemberName, now.name) == Some(was)
    ensures changes == KeptMember(base, head)(now)
  {
    changes := [];
    if was.kind != now.kind {
      changes := [NewChange(ParamKindChanged, head, Some(now.name), now.line, owner := OwnerOf(head),
                            was := Some(MemberKindText(was.kind)), now := Some(MemberKindText(now.kind)))];
    }
    var site := Site(head, Some(now.name), now.line, OwnerOf(head));
    var more;
    if now.kind == Attribute || was.kind == Attribute {
      more := ReturnChange(site, was, now);
    } else {
      more := DiffParams(site, was, now);
    }
    changes := changes + more;
  }

  // ---------------------------------------------------------------- fields

  method DiffFields(base: Symbol, head: Symbol) returns (changes: seq<Change>)
    ensures changes == FieldChanges(base, head)
  {
    var oldBy := ByName(base.fields, FieldName);
    var newBy := ByName(head.fields, FieldName);
    var gone := RemovedFields(base, head, newBy);
    var added := AddedFields(base, head, oldBy);
    var kept := KeptFields(base, head, oldBy);
    changes := gone + added + kept;
  }

  method RemovedFields(base: Symbol, head: Symbol, newBy: map<string, Field>) returns (changes: seq<Change>)
    requires Dictionary(newBy, head.fields, FieldName)
    ensures changes == Collect(base.fields, RemovedField(base, head))
  {
    changes := [];
    for i := 0 to |base.fields|
      invariant changes == Collect(base.fields[..i], RemovedField(base, head))
    {
      TakeOneMore(base.fields, i);
      var f := base.fields[i];
      assert Entry(newBy, head.fields, FieldName, f.name);
      if f.name !in newBy {
        changes := changes + [NewChange(FieldRemoved, head, Some(f.name), f.line, file := base.file,
                                        was := Some(f.annotation.text))];
      }
    }
    assert base.fields[..|base.fields|] == base.fields;
  }

  method AddedFields(base: Symbol, head: Symbol, oldBy: map<string, Field>) returns (changes: seq<Change>)
    requires Dictionary(oldBy, base.fields, FieldName)
    ensures changes == Collect(head.fields, AddedField(base, head))
  {
    changes := [];
    for i := 0 to |head.fields|
      invariant changes == Collect(head.fields[..i], AddedField(base, head))
    {
      TakeOneMore(head.fields, i);
      var f := head.fields[i];
      assert Entry(oldBy, base.fields, FieldName, f.name);
      if f.name !in oldBy {
        changes := changes + [NewChange(FieldAdded, head, Some(f.name), f.line,
                                        extra := if f.default.None? then Required else Plain,
                                        now := Some(f.annotation.text))];
      }
    }
    assert head.fields[..|head.fields|] == head.fields;
  }

  method KeptFields(base: Symbol, head: Symbol, oldBy: map<string, Field>) returns (changes: seq<Change>)
    requires Dictionary(oldBy, base.fields, FieldName)
    ensures changes == Collect(head.fields, KeptField(base, head))
  {
    changes := [];
    var oldPos, newPos := PositionalFieldNames(base.fields), PositionalFieldNames(head.fields);
    for i := 0 to |head.fields|
      invariant changes == Collect(head.fields[..i], KeptField(base, head))
    {
      TakeOneMore(head.fields, i);
      var f := head.fields[i];
      assert Entry(oldBy, base.fields, FieldName, f.name);
      if f.name !in oldBy {
        continue;
      }
      var reordered :=
        f.name in oldPos && (f.name !in newPos || IndexOf(oldPos, f.name) != IndexOf(newPos, f.name));
      var more := DiffField(base, head, oldBy[f.name], f, reordered);
      assert more == KeptField(base, head)(f);
      changes := changes + more;
    }
    assert head.fields[..|head.fields|] == head.fields;
  }

  // One field that both classes have.
  method DiffField(base: Symbol, head: Symbol, g: Field, f: Field, reordered: bool) returns (changes: seq<Change>)
    requires reordered == Reordered(base, head, f.name)
    ensures changes == OrderChange(base, head, f) + FieldTypeChange(head, g, f) + FieldDefaultChange(head, g, f)
  {
    changes := [];
    if reordered {
      changes := changes + [NewChange(FieldReordered, head, Some(f.name), f.line,
                                      was := Some(PlaceText(base.fields, f.name)),
                                      now := Some(PlaceText(head.fields, f.name)))];
    }
    var dir := DirectionOf(Some(g.annotation), Some(f.annotation));
    if dir != Equal {
      changes := changes + [NewChange(FieldAnnotationChanged, head, Some(f.name), f.line, dir := dir,
                                      was := Some(g.annotation.text), now := Some(f.annotation.text))];
    }
    if TextOfDefault(g.default) != TextOfDefault(f.default) {
      changes := changes + [NewChange(DefaultChanged, head, Some(f.name), f.line,
                                      extra := FieldDefaultExtra(g.default, f.default),
                                      was := TextOfDefault(g.default), now := TextOfDefault(f.default))];
    }
  }

  // ---------------------------------------------------------------- enums

  method DiffEnum(base: Symbol, head: Symbol) returns (changes: seq<Change>)
    ensures changes == EnumChanges(base, head)
  {
    var oldBy := ByName(base.enumMembers, EnumName);
    var newBy := ByName(head.enumMembers, EnumName);
    var gone := RemovedEnums(base, head, newBy);
    var kept := KeptEnums(base, head, oldBy);
    changes := gone + kept;
  }

  method RemovedEnums(base: Symbol, head: Symbol, newBy: map<string, EnumMember>) returns (changes: seq<Change>)
    requires Dictionary(newBy, head.enumMembers, EnumName)
    ensures changes == Collect(base.enumMembers, RemovedEnum(base, head))
  {
    changes := [];
    for i := 0 to |base.enumMembers|
      invariant changes == Collect(base.enumMembers[..i], RemovedEnum(base, head))
    {
      TakeOneMore(base.enumMembers, i);
      var m := base.enumMembers[i];
      assert Entry(newBy, head.enumMembers, EnumName, m.name);
      if m.name !in newBy {
        changes := changes + [NewChange(EnumMemberRemoved, head, Some(m.name), m.line, file := base.file,
                                        was := Some(m.value))];
      }
    }
    assert base.enumMembers[..|base.enumMembers|] == base.enumMembers;
  }

  method KeptEnums(base: Symbol, head: Symbol, oldBy: map<string, EnumMember>) returns (changes: seq<Change>)
    requires Dictionary(oldBy, base.enumMembers, EnumName)
    ensures changes == Collect(head.enumMembers, KeptEnum(base, head))
  {
    changes := [];
    for i := 0 to |head.enumMembers|
      invariant changes == Collect(head.enumMembers[..i], KeptEnum(base, head))
    {
      TakeOneMore(head.enumMembers, i);
      var m := head.enumMembers[i];
      assert Entry(oldBy, base.enumMembers, EnumName, m.name);
      if m.name !in oldBy {
        changes := changes + [NewChange(EnumMemberAdded, head, Some(m.name), m.line, now := Some(m.value))];
      } else if oldBy[m.name].value != m.value {
        changes := changes + [NewChange(EnumValueChanged, head, Some(m.name), m.line,
                                        was := Some(oldBy[m.name].value), now := Some(m.value))];
      }
    }
    assert head.enumMembers[..|head.enumMembers|] == head.enumMembers;
  }

  // ---------------------------------------------------------------- symbols

  method DiffSymbol(base: Symbol, head: Symbol) returns (changes: seq<Change>)
    ensures changes == SymbolChanges(base, head)
  {
    if head.kind == Alias && base.kind == Alias {
      return AliasChange(base, head);
    }
    if head.kind == FunctionSymbol && base.signature.Some? && head.signature.Some? {
      changes := DiffParams(Site(head, None, head.signature.value.line, OwnerCallable),
                            base.signature.value, head.signature.value);
      return;
    }
    changes := DiffClass(base, head);
    var bases := DiffBases(base, head);
    var members := DiffMembers(base, head);
    var fields := DiffFields(base, head);
    var enumMembers := DiffEnum(base, head);
    changes := changes + bases + members + fields + enumMembers;
  }

  // The changes of the class statement itself.
  method DiffClass(base: Symbol, head: Symbol) returns (changes: seq<Change>)
    ensures changes == KindOfSymbolChange(base, head) + FrozenChange(base, head) + SymbolMarkerChange(base, head)
  {
    changes := [];
    if base.kind != head.kind {
      changes := changes + [NewChange(ParamKindChanged, head, None, head.line, extra := KindOfSymbol,
                                      was := Some(SymbolKindText(base.kind)),
                                      now := Some(SymbolKindText(head.kind)))];
    }
    if base.frozen != head.frozen {
      changes := changes + [NewChange(ModelFrozenChanged, head, None, head.line,
                                      extra := if head.frozen then Frozen else Unfrozen,
                                      was := Some(BoolText(base.frozen)), now := Some(BoolText(head.frozen)))];
    }
    if head.deprecated && !base.deprecated {
      changes := changes + [NewChange(DeprecatedMarkerAdded, head, None, head.line)];
    }
  }

  method DiffBases(base: Symbol, head: Symbol) returns (changes: seq<Change>)
    ensures changes == BaseChanges(base, head)
  {
    changes := [];
    if head.kind == ProtocolClass && base.kind == ProtocolClass {
      var added := YieldFrom(SortedMinus(head.bases, base.bases), BaseGained(head));
      var removed := YieldFrom(SortedMinus(base.bases, head.bases), BaseLost(head));
      changes := added + removed;
    }
  }

  // The second loop of diff: each symbol of the head against its namesake.
  method DiffHeadSymbols(base: Surface, head: Surface) returns (changes: seq<Change>)
    ensures changes == Collect(head.symbols, HeadSymbol(base))
  {
    changes := [];
    for i := 0 to |head.symbols|
      invariant changes == Collect(head.symbols[..i], HeadSymbol(base))
    {
      TakeOneMore(head.symbols, i);
      var more := DiffHeadSymbol(base, head.symbols[i]);
      changes := changes + more;
    }
    assert head.symbols[..|head.symbols|] == head.symbols;
  }

  method DiffHeadSymbol(base: Surface, s: Symbol) returns (changes: seq<Change>)
    ensures changes == HeadSymbol(base)(s)
  {
    var namesake := Lookup(base.symbols, SymbolName, s.Key());
    if namesake.None? {
      changes := [NewChange(AddedMember, s, None, s.line)];
    } else {
      changes := DiffSymbol(namesake.value, s);
    }
  }

  // ---------------------------------------------------------------- the report's order

  function ClassificationText(c: Classification): string {
    match c
    case AddedMember => "added-member"
    case RemovedMember => "removed-member"
    case Renamed => "renamed?"
    case ParamAddedRequired => "param-added-required"
    case ParamAddedKeywordOnly => "param-added-keyword-only"
    case ParamAddedDefaulted => "param-added-defaulted"
    case ParamRemoved => "param-removed"
    case ParamKindChanged => "param-kind-changed"
    case ParamAnnotationChanged => "param-annotation-changed"
    case ReturnAnnotationChanged => "return-annotation-changed"
    case DefaultChanged => "default-changed"
    case FieldAdded => "field-added"
    case FieldRemoved => "field-removed"
    case FieldReordered => "field-reordered"
    case FieldAnnotationChanged => "field-annotation-changed"
    case ModelFrozenChanged => "model-frozen-changed"
    case EnumMemberAdded => "enum-member-added"
    case EnumMemberRemoved => "enum-member-removed"
    case EnumValueChanged => "enum-value-changed"
    case AliasChanged => "alias-changed"
    case DeprecatedMarkerAdded => "deprecated-marker-added"
  }

  function SymbolText(c: Change): string {
    c.path + (if c.member.Some? then "." + c.member.value else "")
    + (if c.param.Some? then "(" + c.param.value + ")" else "")
  }

  // Within one path, the symbol's text tells members and parameters apart.
  lemma SymbolsApart(a: Change, b: Change)
    requires a.path == b.path && SymbolText(a) == SymbolText(b)
    requires a.member.Some? ==> '(' !in a.member.value
    requires b.member.Some? ==> '(' !in b.member.value
    ensures a.member == b.member && a.param == b.param
  {
    TailParts(a);
    TailParts(b);
    assert SymbolText(a)[|a.path|..] == SymbolText(b)[|b.path|..];
    if a.member.Some? && b.member.Some? {
      assert ("." + a.member.value)[1..] == ("." + b.member.value)[1..];
    }
    if a.param.Some? && b.param.Some? {
      assert (a.param.value + ")")[..|a.param.value|] == (b.param.value + ")")[..|b.param.value|];
    }
  }

  // What follows the path, divided at its first parenthesis.
  lemma TailParts(c: Change)
    requires c.member.Some? ==> '(' !in c.member.value
    ensures var tail := SymbolText(c)[|c.path|..];
      TextOps.Partition(tail, '(') ==
      (if c.member.Some? then "." + c.member.value else "", c.param.Some?,
       if c.param.Some? then c.param.value + ")" else "")
  {
    var tail := SymbolText(c)[|c.path|..];
    var member := if c.member.Some? then "." + c.member.value else "";
    if c.param.Some? {
      TextOps.PartitionAt(member, c.param.value + ")", '(');
      assert tail == member + ['('] + (c.param.value + ")");
    } else {
      TextOps.PartitionNone(member, '(');
      assert tail == member;
    }
  }

  // The tuple order of (file, line, symbol, classification).
  predicate ChangeLeq(a: Change, b: Change) {
    if a.file != b.file then TextLeq(a.file, b.file)
    else if a.line != b.line then a.line <= b.line
    else if SymbolText(a) != SymbolText(b) then TextLeq(SymbolText(a), SymbolText(b))
    else TextLeq(ClassificationText(a.classification), ClassificationText(b.classification))
  }

  // A change stands strictly before another when its file does in text order; in one file when its
  // line is smaller; on one line when its symbol does; and for one symbol when its classification does.
  lemma KeyOrder(a: Change, b: Change)
    ensures ChangeLeq(a, b) && !ChangeLeq(b, a) <==>
              || TextBefore(a.file, b.file)
              || (a.file == b.file && a.line < b.line)
              || (a.file == b.file && a.line == b.line && TextBefore(SymbolText(a), SymbolText(b)))
              || (a.file == b.file && a.line == b.line && SymbolText(a) == SymbolText(b)
                  && TextBefore(ClassificationText(a.classification), ClassificationText(b.classification)))
  {
    TextStrict(a.file, b.file);
    TextStrict(SymbolText(a), SymbolText(b));
    TextStrict(ClassificationText(a.classification), ClassificationText(b.classification));
  }

  ghost predicate TextBefore(a: string, b: string) {
    exists k: nat :: DiffersAt(a, b, k)
  }

  lemma TextStrict(a: string, b: string)
    ensures TextBefore(a, b) <==> TextLeq(a, b) && !TextLeq(b, a)
    ensures TextBefore(a, b) ==> a != b
  {
    TextOrder(a, b);
    TextLeqTotal(a, b);
    TextLeqReflexive(a);
  }

  lemma {:induction false} TextLeqReflexive(a: string)
    ensures TextLeq(a, a)
  {
    TextLeqTotal(a, a);
  }

  lemma ChangeLeqTotal(a: Change, b: Change)
    ensures ChangeLeq(a, b) || ChangeLeq(b, a)
  {
    TextLeqTotal(a.file, b.file);
    TextLeqTotal(SymbolText(a), SymbolText(b));
    TextLeqTotal(ClassificationText(a.classification), ClassificationText(b.classification));
  }

  lemma ChangeLeqTransitive(a: Change, b: Change, c: Change)
    requires ChangeLeq(a, b) && ChangeLeq(b, c)
    ensures ChangeLeq(a, c)
  {
    TextLeqTotal(a.file, b.file);
    TextLeqTotal(SymbolText(a), SymbolText(b));
    if a.file != b.file || b.file != c.file {
      if a.file != b.file && b.file != c.file {
        TextLeqTransitive(a.file, b.file, c.file);
      }
    } else if a.line == b.line == c.line {
      if SymbolText(a) != SymbolText(b) && SymbolText(b) != SymbolText(c) {
        TextLeqTransitive(SymbolText(a), SymbolText(b), SymbolText(c));
      } else if SymbolText(a) == SymbolText(b) == SymbolText(c) {
        TextLeqTransitive(ClassificationText(a.classification), ClassificationText(b.classification),
                          ClassificationText(c.classification));
      }
    }
  }

  // Changes the report's key does not tell apart.
  predicate SameKey(a: Change, b: Change) {
    && a.file == b.file && a.line == b.line
    && SymbolText(a) == SymbolText(b) && ClassificationText(a.classification) == ClassificationText(b.classification)
  }

  ghost predicate SameOrder(a: seq<Change>, b: seq<Change>, c: Change) {
    Filter(a, (d: Change) => SameKey(c, d)) == Filter(b, (d: Change) => SameKey(c, d))
  }

  // The report is ordered by its key, holds what was collected, and keeps changes of one key in
  // the order in which they were collected.
  lemma ReportOrder(changes: seq<Change>)
    ensures Sorted(StableSort(changes, ChangeLeq), ChangeLeq)
    ensures multiset(StableSort(changes, ChangeLeq)) == multiset(changes)
    ensures forall c :: SameOrder(StableSort(changes, ChangeLeq), changes, c)
  {
    forall c ensures SameOrder(StableSort(changes, ChangeLeq), changes, c) {
      KeyOrderKept(changes, c);
    }
    var all := Elements(changes);
    forall a, b | a in all && b in all ensures ChangeLeq(a, b) || ChangeLeq(b, a) {
      ChangeLeqTotal(a, b);
    }
    forall a, b, c | a in all && b in all && c in all && ChangeLeq(a, b) && ChangeLeq(b, c) ensures ChangeLeq(a, c) {
      ChangeLeqTransitive(a, b, c);
    }
    StableSortSorts(changes, ChangeLeq, all);
  }

  lemma KeyOrderKept(changes: seq<Change>, c: Change)
    ensures SameOrder(StableSort(changes, ChangeLeq), changes, c)
  {
    forall d, e | SameKey(c, d) && SameKey(c, e) ensures ChangeLeq(d, e) {
      TextLeqTotal(ClassificationText(d.classification), ClassificationText(e.classification));
    }
    StableSortStable(changes, ChangeLeq, (d: Change) => SameKey(c, d));
  }

  // The collected changes, sorted by the report key.
  method Diff(base: Surface, head: Surface) returns (changes: seq<Change>)
    ensures multiset(changes) == multiset(SurfaceChanges(base, head))
    ensures Sorted(changes, ChangeLeq)
    ensures forall c :: SameOrder(changes, SurfaceChanges(base, head), c)
    ensures UnambiguousSurface(base) && UnambiguousSurface(head) ==> Accounted(changes, base, head)
    ensures WellFormedSurface(base) && WellFormedSurface(head) && Quiet(changes) ==> UsersServed(base, head)
  {
    var gone := YieldFrom(base.symbols, RemovedSymbol(head));
    var rest := DiffHeadSymbols(base, head);
    changes := gone + rest;
    ReportOrder(changes);
    changes := StableSort(changes, ChangeLeq);
    QuietReport(base, head, changes);
    if UnambiguousSurface(base) && UnambiguousSurface(head) {
      ReportAccounts(changes, base, head);
    }
  }

  // A report is quiet when what it was sorted from is.
  lemma QuietReport(base: Surface, head: Surface, changes: seq<Change>)
    requires multiset(changes) == multiset(SurfaceChanges(base, head))
    ensures WellFormedSurface(base) && WellFormedSurface(head) && Quiet(changes) ==> UsersServed(base, head)
  {
    forall c | c in SurfaceChanges(base, head) ensures c in changes {
      SameMembers(changes, SurfaceChanges(base, head), c);
    }
    if WellFormedSurface(base) && WellFormedSurface(head) && Quiet(changes) {
      QuietDiffServes(base, head);
    }
  }
}
