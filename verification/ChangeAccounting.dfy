// What a report says, by topic: for every classification, member and parameter, which changes the
// report holds about it, with their place, texts and needs. The reference definitions below name
// the differences between the two sides and none of the differ's generators.
module ChangeAccounting {
  import opened Common
  import opened Permutations
  import opened Sorting
  import opened ContractSurface
  import TextOps

  // What a change is about.
  datatype Topic = Topic(
    path: string, member: Option<string>, param: Option<string>, classification: Classification)

  function About(t: Topic): Change -> bool {
    (c: Change) => c.classification == t.classification && Concerns(c, t)
  }

  predicate Concerns(c: Change, t: Topic) {
    c.path == t.path && c.member == t.member && c.param == t.param
  }

  // The changes on a topic.
  function On(changes: seq<Change>, t: Topic): seq<Change> {
    Filter(changes, About(t))
  }

  function OneIf(holds: bool, c: Change): seq<Change> {
    if holds then [c] else []
  }

  function Called<T>(nameOf: T -> string, name: string): T -> bool {
    (x: T) => nameOf(x) == name
  }

  // The texts a change quotes, written out here so that the reference definitions below rest on no
  // part of the differ.
  function TextOf(a: Option<Annotation>): Option<string> {
    match a case Some(x) => Some(x.text) case None => None
  }

  function DefaultOf(d: Option<DefaultText>): Option<string> {
    match d case Some(x) => Some(x.text) case None => None
  }

  // ---------------------------------------------------------------- picking from what a loop yields

  lemma OnConcat(a: seq<Change>, b: seq<Change>, t: Topic)
    ensures On(a + b, t) == On(a, t) + On(b, t)
  {
    FilterConcat(a, b, About(t));
  }

  lemma OnOneIf(holds: bool, c: Change, t: Topic)
    ensures On(OneIf(holds, c), t) == OneIf(holds && About(t)(c), c)
  {
    if holds {
      FilterSnoc([], c, About(t));
      assert [] + [c] == [c];
    }
  }

  lemma OnNone(changes: seq<Change>, t: Topic)
    requires forall c :: c in changes ==> !About(t)(c)
    ensures On(changes, t) == []
  {
    FilterNone(changes, About(t));
  }

  // Only the elements kept say anything on the topic.
  lemma {:induction false} OnCollect<T>(
    s: seq<T>, f: T -> seq<Change>, keep: T -> bool, report: T -> seq<Change>, t: Topic)
    requires forall x :: x in s ==> On(f(x), t) == if keep(x) then report(x) else []
    ensures On(Collect(s, f), t) == Collect(Filter(s, keep), report)
  {
    if s != [] {
      var front, last := s[..|s| - 1], s[|s| - 1];
      assert last in s && forall x :: x in front ==> x in s;
      OnCollect(front, f, keep, report, t);
      OnConcat(Collect(front, f), f(last), t);
      if keep(last) {
        CollectSnoc(Filter(front, keep), last, report);
      } else {
        AppendNothing(Filter(front, keep));
        AppendNothing(On(Collect(front, f), t));
      }
    }
  }

  // Of elements with distinct names, at most one carries a given name.
  lemma {:induction false} OneCalled<T>(s: seq<T>, nameOf: T -> string, name: string)
    requires Distinct(s, nameOf)
    ensures Filter(s, Called(nameOf, name))
         == match Lookup(s, nameOf, name) case Some(x) => [x] case None => []
  {
    if s != [] {
      var front, last := s[..|s| - 1], s[|s| - 1];
      forall x | x in front ensures nameOf(x) != nameOf(last) {
        var i :| 0 <= i < |front| && front[i] == x;
        assert nameOf(s[i]) == nameOf(x);
      }
      OneCalled(front, nameOf, name);
      LookupFinds(front, nameOf, name);
    }
  }

  lemma OnCollectCalled<T>(s: seq<T>, f: T -> seq<Change>, nameOf: T -> string, name: string, t: Topic)
    requires Distinct(s, nameOf)
    requires forall x :: x in s && nameOf(x) != name ==> On(f(x), t) == []
    ensures On(Collect(s, f), t)
         == match Lookup(s, nameOf, name) case Some(x) => On(f(x), t) case None => []
  {
    var report := (x: T) => On(f(x), t);
    OnCollect(s, f, Called(nameOf, name), report, t);
    OneCalled(s, nameOf, name);
    match Lookup(s, nameOf, name)
    case Some(x) =>
      CollectSnoc([], x, report);
      assert [] + [x] == [x] && [] + report(x) == report(x);
    case None =>
  }

  lemma OnCollectNone<T>(s: seq<T>, f: T -> seq<Change>, t: Topic)
    requires forall x :: x in s ==> On(f(x), t) == []
    ensures On(Collect(s, f), t) == []
  {
    OnCollect(s, f, x => false, x => [], t);
    FilterNone(s, x => false);
  }

  // ---------------------------------------------------------------- one signature

  // A change reported at the signature's place.
  function Entry(site: Site, cls: Classification, param: Option<string>, dir: Direction,
                 needs: seq<Section>, was: Option<string>, now: Option<string>): Change
  {
    Change(cls, site.sym.Key(), site.member, param, site.sym.file, site.line, dir, needs, was, now)
  }

  // The parameter's place among the positional ones, if it has one.
  function PlaceIn(params: seq<Param>, name: string): Option<nat> {
    var names := PositionalNames(params);
    if name in names then Some(IndexOf(names, name)) else None
  }

  function GoneParamReport(site: Site, p: Param, cls: Classification): seq<Change> {
    OneIf(cls == ParamRemoved,
          Entry(site, ParamRemoved, Some(p.name), Equal, [Breaking, Consumer], TextOf(p.annotation), None))
  }

  // A new parameter is reported under exactly one of three classifications.
  predicate AddedAs(q: Param, cls: Classification) {
    var star := q.kind == VarPositional || q.kind == VarKeyword;
    match cls
    case ParamAddedRequired => !star && q.default.None?
    case ParamAddedKeywordOnly => q.kind == KeywordOnly && q.default.Some?
    case ParamAddedDefaulted => star || (q.kind != KeywordOnly && q.default.Some?)
    case _ => false
  }

  function NewParamReport(site: Site, q: Param, cls: Classification): seq<Change> {
    var needs := if cls == ParamAddedRequired then [Breaking, Consumer]
                 else if site.owner == OwnerProtocol then [Breaking] else [];
    OneIf(AddedAs(q, cls), Entry(site, cls, Some(q.name), Equal, needs, None, TextOf(q.annotation)))
  }

  function AnnotationNeeds(owner: Owner, p: Param, dir: Direction): seq<Section> {
    if dir == Equal || dir == Widened then []
    else if dir == Undecided || (owner == OwnerCallable && Top(UnionOf(p.annotation)))
    then [Breaking, Consumer, Deprecated, Changed]
    else [Breaking, Consumer, Deprecated]
  }

  function DefaultNeeds(owner: Owner, was: Option<DefaultText>, now: Option<DefaultText>): seq<Section> {
    if was.None? then (if owner == OwnerProtocol then [Breaking] else [])
    else if now.Some? && !(was.value.literal && now.value.literal) then [Breaking, Consumer, Deprecated, Changed]
    else [Breaking, Consumer]
  }

  // A parameter of both signatures: its kind or place, its annotation, its default.
  function KeptParamReport(site: Site, was: Member, now: Member, p: Param, q: Param, cls: Classification): seq<Change> {
    var name := Some(p.name);
    match cls
    case ParamKindChanged =>
      OneIf(p.kind != q.kind || PlaceIn(was.params, p.name) != PlaceIn(now.params, p.name),
            Entry(site, cls, name, Equal, [Breaking, Consumer],
                  Some(ParamKindText(p.kind)), Some(ParamKindText(q.kind))))
    case ParamAnnotationChanged =>
      var dir := DirectionOf(p.annotation, q.annotation);
      OneIf(dir != Equal, Entry(site, cls, name, dir, AnnotationNeeds(site.owner, p, dir),
                                TextOf(p.annotation), TextOf(q.annotation)))
    case DefaultChanged =>
      OneIf(DefaultOf(p.default) != DefaultOf(q.default),
            Entry(site, cls, name, Equal, DefaultNeeds(site.owner, p.default, q.default),
                  DefaultOf(p.default), DefaultOf(q.default)))
    case _ => []
  }

  function ResultNeeds(owner: Owner, dir: Direction): seq<Section> {
    if dir == Undecided then [Breaking, Consumer, Deprecated, Changed]
    else if dir == Widened || (dir == Narrowed && owner == OwnerProtocol) then [Breaking, Consumer, Deprecated]
    else []
  }

  function ResultReport(site: Site, was: Member, now: Member): seq<Change> {
    var dir := DirectionOf(was.result, now.result);
    OneIf(dir != Equal, Entry(site, ReturnAnnotationChanged, None, dir, ResultNeeds(site.owner, dir),
                              TextOf(was.result), TextOf(now.result)))
  }

  function MarkerReport(site: Site, was: Member, now: Member): seq<Change> {
    OneIf(now.deprecated && !was.deprecated,
          Entry(site, DeprecatedMarkerAdded, None, Equal, [Deprecated], None, None))
  }

  // What the report says of a signature as a whole.
  function OwnReport(site: Site, was: Member, now: Member, cls: Classification): seq<Change> {
    match cls
    case ReturnAnnotationChanged => ResultReport(site, was, now)
    case DeprecatedMarkerAdded => MarkerReport(site, was, now)
    case _ => []
  }

  predicate AtSite(site: Site, t: Topic) {
    t.path == site.sym.Key() && t.member == site.member
  }

  // What the report of a signature says on a topic.
  function SignatureReport(site: Site, was: Member, now: Member, t: Topic): seq<Change> {
    if !AtSite(site, t) then []
    else
      match t.param
      case None => OwnReport(site, was, now, t.classification)
      case Some(name) =>
        match (Lookup(was.params, ParamName, name), Lookup(now.params, ParamName, name))
        case (None, None) => []
        case (Some(p), None) => GoneParamReport(site, p, t.classification)
        case (None, Some(q)) => NewParamReport(site, q, t.classification)
        case (Some(p), Some(q)) => KeptParamReport(site, was, now, p, q, t.classification)
  }

  // ---------------------------------------------------------------- one signature: the proof

  // Among distinct names, a parameter stands among the positional names exactly when it is one.
  lemma PositionalIff(params: seq<Param>, p: Param)
    requires Distinct(params, ParamName) && p in params
    ensures p.name in PositionalNames(params) <==> IsPositional(p.kind)
  {
    var names, positional := PositionalNames(params), PositionalParams(params);
    FilterMember(params, (x: Param) => IsPositional(x.kind), p);
    if IsPositional(p.kind) {
      var i :| 0 <= i < |positional| && positional[i] == p;
      assert names[i] == p.name;
    }
    if p.name in names {
      var i :| 0 <= i < |names| && names[i] == p.name;
      FilterMember(params, (x: Param) => IsPositional(x.kind), positional[i]);
      LookupDistinct(params, ParamName, p);
      LookupDistinct(params, ParamName, positional[i]);
    }
  }

  lemma KindSays(site: Site, was: Member, now: Member, p: Param, q: Param)
    requires Distinct(was.params, ParamName) && Distinct(now.params, ParamName)
    requires p in was.params && q in now.params && p.name == q.name
    ensures KindChange(site, was, now, p, q) == KeptParamReport(site, was, now, p, q, ParamKindChanged)
  {
    PositionalIff(was.params, p);
    PositionalIff(now.params, q);
  }

  lemma AnnotationSays(site: Site, was: Member, now: Member, p: Param, q: Param)
    requires p.name == q.name
    ensures AnnotationChange(site, p, q) == KeptParamReport(site, was, now, p, q, ParamAnnotationChanged)
  {
  }

  lemma DefaultSays(site: Site, was: Member, now: Member, p: Param, q: Param)
    requires p.name == q.name
    ensures DefaultChange(site, p, q) == KeptParamReport(site, was, now, p, q, DefaultChanged)
  {
  }

  lemma KeptParamParts(site: Site, was: Member, now: Member, p: Param, q: Param, t: Topic)
    requires Lookup(was.params, ParamName, q.name) == Some(p)
    ensures On(KeptParam(site, was, now)(q), t)
         == On(KindChange(site, was, now, p, q), t) + On(AnnotationChange(site, p, q), t)
            + On(DefaultChange(site, p, q), t)
  {
    var a, b, c := KindChange(site, was, now, p, q), AnnotationChange(site, p, q), DefaultChange(site, p, q);
    OnConcat(a + b, c, t);
    OnConcat(a, b, t);
  }

  lemma OneOfThree(a: seq<Change>, b: seq<Change>, c: seq<Change>, t: Topic)
    requires ByItself(a, ParamKindChanged, t) && ByItself(b, ParamAnnotationChanged, t)
    requires ByItself(c, DefaultChanged, t)
    ensures On(a, t) + On(b, t) + On(c, t)
         == match t.classification
            case ParamKindChanged => a
            case ParamAnnotationChanged => b
            case DefaultChanged => c
            case _ => []
  {
    OnAlone(a, ParamKindChanged, t);
    OnAlone(b, ParamAnnotationChanged, t);
    OnAlone(c, DefaultChanged, t);
  }

  // A parameter's own comparison, on a topic about it.
  lemma KeptParamSays(site: Site, was: Member, now: Member, p: Param, q: Param, t: Topic)
    requires Distinct(was.params, ParamName) && Distinct(now.params, ParamName)
    requires p in was.params && q in now.params && p.name == q.name
    requires AtSite(site, t) && t.param == Some(p.name)
    ensures On(KeptParam(site, was, now)(q), t) == KeptParamReport(site, was, now, p, q, t.classification)
  {
    LookupDistinct(was.params, ParamName, p);
    KeptParamParts(site, was, now, p, q, t);
    KindSays(site, was, now, p, q);
    AnnotationSays(site, was, now, p, q);
    DefaultSays(site, was, now, p, q);
    OneOfThree(KeptParamReport(site, was, now, p, q, ParamKindChanged),
               KeptParamReport(site, was, now, p, q, ParamAnnotationChanged),
               KeptParamReport(site, was, now, p, q, DefaultChanged), t);
  }

  // At most one change, of a known classification and about the topic's member and parameter.
  ghost predicate ByItself(changes: seq<Change>, cls: Classification, t: Topic) {
    && |changes| <= 1
    && forall c :: c in changes ==> c.classification == cls && Concerns(c, t)
  }

  lemma OnAlone(changes: seq<Change>, cls: Classification, t: Topic)
    requires ByItself(changes, cls, t)
    ensures On(changes, t) == if cls == t.classification then changes else []
  {
    if changes != [] {
      assert changes == OneIf(true, changes[0]);
      OnOneIf(true, changes[0], t);
    }
  }

  // Changes about another parameter, or about none.
  lemma OnOthers(changes: seq<Change>, t: Topic)
    requires forall c :: c in changes ==> !Concerns(c, t)
    ensures On(changes, t) == []
  {
    OnNone(changes, t);
  }

  lemma GoneParamSays(site: Site, now: Member, p: Param, t: Topic)
    requires AtSite(site, t) && t.param == Some(p.name)
    ensures On(RemovedParam(site, now)(p), t)
         == if Lookup(now.params, ParamName, p.name).Some? then [] else GoneParamReport(site, p, t.classification)
  {
    if Lookup(now.params, ParamName, p.name).None? {
      assert RemovedParam(site, now)(p) == GoneParamReport(site, p, ParamRemoved);
      OnAlone(GoneParamReport(site, p, ParamRemoved), ParamRemoved, t);
    }
  }

  lemma GoneParamsSay(site: Site, was: Member, now: Member, name: string, t: Topic)
    requires Distinct(was.params, ParamName) && AtSite(site, t) && t.param == Some(name)
    ensures On(Collect(was.params, RemovedParam(site, now)), t)
         == match (Lookup(was.params, ParamName, name), Lookup(now.params, ParamName, name))
            case (Some(p), None) => GoneParamReport(site, p, t.classification)
            case _ => []
  {
    var f := RemovedParam(site, now);
    forall p | p in was.params && ParamName(p) != name ensures On(f(p), t) == [] {
      OnOthers(f(p), t);
    }
    OnCollectCalled(was.params, f, ParamName, name, t);
    LookupFinds(was.params, ParamName, name);
    match Lookup(was.params, ParamName, name)
    case Some(p) => GoneParamSays(site, now, p, t);
    case None =>
  }

  lemma AddedAsClass(q: Param, cls: Classification)
    ensures AddedAs(q, cls) <==> AddedClass(q) == cls
  {
  }

  lemma AddedSays(site: Site, was: Member, q: Param)
    requires Lookup(was.params, ParamName, q.name).None?
    ensures AddedParam(site, was)(q) == NewParamReport(site, q, AddedClass(q))
  {
    AddedAsClass(q, AddedClass(q));
  }

  lemma NewParamSays(site: Site, was: Member, q: Param, t: Topic)
    requires Lookup(was.params, ParamName, q.name).None?
    requires AtSite(site, t) && t.param == Some(q.name)
    ensures On(AddedParam(site, was)(q), t) == NewParamReport(site, q, t.classification)
  {
    AddedSays(site, was, q);
    OnAlone(NewParamReport(site, q, AddedClass(q)), AddedClass(q), t);
    AddedAsClass(q, t.classification);
  }

  lemma NewParamsSay(site: Site, was: Member, now: Member, name: string, t: Topic)
    requires Distinct(now.params, ParamName) && AtSite(site, t) && t.param == Some(name)
    ensures On(Collect(now.params, AddedParam(site, was)), t)
         == match (Lookup(was.params, ParamName, name), Lookup(now.params, ParamName, name))
            case (None, Some(q)) => NewParamReport(site, q, t.classification)
            case _ => []
  {
    var f := AddedParam(site, was);
    forall p | p in now.params && ParamName(p) != name ensures On(f(p), t) == [] {
      OnOthers(f(p), t);
    }
    OnCollectCalled(now.params, f, ParamName, name, t);
    LookupFinds(now.params, ParamName, name);
    match Lookup(now.params, ParamName, name)
    case Some(q) =>
      if Lookup(was.params, ParamName, name).None? {
        NewParamSays(site, was, q, t);
      } else {
        OnNone(f(q), t);
      }
    case None =>
  }

  lemma KeptParamsSay(site: Site, was: Member, now: Member, name: string, t: Topic)
    requires Distinct(was.params, ParamName) && Distinct(now.params, ParamName)
    requires AtSite(site, t) && t.param == Some(name)
    ensures On(Collect(now.params, KeptParam(site, was, now)), t)
         == match (Lookup(was.params, ParamName, name), Lookup(now.params, ParamName, name))
            case (Some(p), Some(q)) => KeptParamReport(site, was, now, p, q, t.classification)
            case _ => []
  {
    var f := KeptParam(site, was, now);
    forall p | p in now.params && ParamName(p) != name ensures On(f(p), t) == [] {
      OnOthers(f(p), t);
    }
    OnCollectCalled(now.params, f, ParamName, name, t);
    LookupFinds(was.params, ParamName, name);
    LookupFinds(now.params, ParamName, name);
    match (Lookup(was.params, ParamName, name), Lookup(now.params, ParamName, name))
    case (Some(p), Some(q)) => KeptParamSays(site, was, now, p, q, t);
    case _ =>
  }

  lemma SignatureParts(site: Site, was: Member, now: Member, t: Topic)
    ensures On(ParamChanges(site, was, now), t)
         == On(Collect(was.params, RemovedParam(site, now)), t) + On(Collect(now.params, AddedParam(site, was)), t)
            + On(Collect(now.params, KeptParam(site, was, now)), t)
            + On(ReturnChange(site, was, now), t) + On(MarkerChange(site, was, now), t)
  {
    var a, b := Collect(was.params, RemovedParam(site, now)), Collect(now.params, AddedParam(site, was));
    var c, d := Collect(now.params, KeptParam(site, was, now)), ReturnChange(site, was, now);
    var e := MarkerChange(site, was, now);
    OnConcat(a + b + c + d, e, t);
    OnConcat(a + b + c, d, t);
    OnConcat(a + b, c, t);
    OnConcat(a, b, t);
  }

  // Parameters say nothing of the signature as a whole, nor of other members.
  lemma ParamsSilent(site: Site, was: Member, now: Member, t: Topic)
    requires t.param.None? || !AtSite(site, t)
    ensures On(Collect(was.params, RemovedParam(site, now)), t) == []
    ensures On(Collect(now.params, AddedParam(site, was)), t) == []
    ensures On(Collect(now.params, KeptParam(site, was, now)), t) == []
  {
    forall p: Param
      ensures On(RemovedParam(site, now)(p), t) == [] && On(AddedParam(site, was)(p), t) == []
      ensures On(KeptParam(site, was, now)(p), t) == []
    {
      OnOthers(RemovedParam(site, now)(p), t);
      OnOthers(AddedParam(site, was)(p), t);
      OnOthers(KeptParam(site, was, now)(p), t);
    }
    OnCollectNone(was.params, RemovedParam(site, now), t);
    OnCollectNone(now.params, AddedParam(site, was), t);
    OnCollectNone(now.params, KeptParam(site, was, now), t);
  }

  lemma OneSpeaks<T>(a: seq<T>, b: seq<T>, c: seq<T>)
    ensures b == [] && c == [] ==> a + b + c == a
    ensures a == [] && c == [] ==> a + b + c == b
    ensures a == [] && b == [] ==> a + b + c == c
  {
  }

  lemma ParamParts(site: Site, was: Member, now: Member, t: Topic)
    requires t.param.Some?
    ensures On(ParamChanges(site, was, now), t)
         == On(Collect(was.params, RemovedParam(site, now)), t) + On(Collect(now.params, AddedParam(site, was)), t)
            + On(Collect(now.params, KeptParam(site, was, now)), t)
  {
    SignatureParts(site, was, now, t);
    OnOthers(ReturnChange(site, was, now), t);
    OnOthers(MarkerChange(site, was, now), t);
  }

  lemma OwnParts(site: Site, was: Member, now: Member, t: Topic)
    requires t.param.None?
    ensures On(ParamChanges(site, was, now), t)
         == [] + On(ReturnChange(site, was, now), t) + On(MarkerChange(site, was, now), t)
  {
    SignatureParts(site, was, now, t);
    ParamsSilent(site, was, now, t);
  }

  lemma ParamAccounting(site: Site, was: Member, now: Member, name: string, t: Topic)
    requires Distinct(was.params, ParamName) && Distinct(now.params, ParamName)
    requires AtSite(site, t) && t.param == Some(name)
    ensures On(ParamChanges(site, was, now), t) == SignatureReport(site, was, now, t)
  {
    ParamParts(site, was, now, t);
    GoneParamsSay(site, was, now, name, t);
    NewParamsSay(site, was, now, name, t);
    KeptParamsSay(site, was, now, name, t);
    OneSpeaks(On(Collect(was.params, RemovedParam(site, now)), t), On(Collect(now.params, AddedParam(site, was)), t),
              On(Collect(now.params, KeptParam(site, was, now)), t));
  }

  lemma ResultSays(site: Site, was: Member, now: Member, t: Topic)
    requires AtSite(site, t) && t.param.None?
    ensures On(ReturnChange(site, was, now), t)
         == if t.classification == ReturnAnnotationChanged then ResultReport(site, was, now) else []
  {
    assert ReturnChange(site, was, now) == ResultReport(site, was, now);
    OnAlone(ResultReport(site, was, now), ReturnAnnotationChanged, t);
  }

  lemma MarkerSays(site: Site, was: Member, now: Member, t: Topic)
    requires AtSite(site, t) && t.param.None?
    ensures On(MarkerChange(site, was, now), t)
         == if t.classification == DeprecatedMarkerAdded then MarkerReport(site, was, now) else []
  {
    assert MarkerChange(site, was, now) == MarkerReport(site, was, now);
    OnAlone(MarkerReport(site, was, now), DeprecatedMarkerAdded, t);
  }

  lemma OwnAccounting(site: Site, was: Member, now: Member, t: Topic)
    requires AtSite(site, t) && t.param.None?
    ensures On(ParamChanges(site, was, now), t) == OwnReport(site, was, now, t.classification)
  {
    OwnParts(site, was, now, t);
    ResultSays(site, was, now, t);
    MarkerSays(site, was, now, t);
    OneSpeaks([], On(ReturnChange(site, was, now), t), On(MarkerChange(site, was, now), t));
  }

  // A signature says nothing of any other place.
  lemma SignatureSilent(site: Site, was: Member, now: Member, t: Topic)
    requires !AtSite(site, t)
    ensures On(ParamChanges(site, was, now), t) == []
  {
    SignatureParts(site, was, now, t);
    ParamsSilent(site, was, now, t);
    OnOthers(ReturnChange(site, was, now), t);
    OnOthers(MarkerChange(site, was, now), t);
  }

  // The report of a signature, topic by topic: every difference of a parameter, of the result and
  // of the marker is one change with its texts and needs, and there is nothing else.
  lemma SignatureAccounting(site: Site, was: Member, now: Member, t: Topic)
    requires Distinct(was.params, ParamName) && Distinct(now.params, ParamName)
    ensures On(ParamChanges(site, was, now), t) == SignatureReport(site, was, now, t)
  {
    if !AtSite(site, t) {
      SignatureSilent(site, was, now, t);
    } else if t.param.Some? {
      ParamAccounting(site, was, now, t.param.value, t);
    } else {
      OwnAccounting(site, was, now, t);
    }
  }

  // A parameter's annotation is reported, once and with both texts, exactly when the types it
  // admits differ, whatever else differs.
  lemma AnnotationReported(site: Site, was: Member, now: Member, p: Param, q: Param)
    requires Distinct(was.params, ParamName) && Distinct(now.params, ParamName)
    requires p in was.params && q in now.params && p.name == q.name
    ensures var said := On(ParamChanges(site, was, now),
                        Topic(site.sym.Key(), site.member, Some(p.name), ParamAnnotationChanged));
      var dir := DirectionOf(p.annotation, q.annotation);
      && |said| == (if dir != Equal then 1 else 0)
      && (dir != Equal ==> said[0].dir == dir && said[0].was == TextOf(p.annotation)
                           && said[0].now == TextOf(q.annotation)
                           && said[0].needs == AnnotationNeeds(site.owner, p, dir))
  {
    SignatureAccounting(site, was, now, Topic(site.sym.Key(), site.member, Some(p.name), ParamAnnotationChanged));
    LookupDistinct(was.params, ParamName, p);
    LookupDistinct(now.params, ParamName, q);
  }
}
