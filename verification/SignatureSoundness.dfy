// What it means for users of the surface that the differ reports nothing breaking.
module SignatureSoundness {
  import opened Common
  import opened ContractSurface
  import opened CallBinding

  lemma QuietConcat(a: seq<Change>, b: seq<Change>)
    ensures Quiet(a + b) <==> Quiet(a) && Quiet(b)
  {
    assert forall c :: c in a + b <==> c in a || c in b;
  }

  lemma QuietCollect<T>(s: seq<T>, f: T -> seq<Change>, x: T)
    requires Quiet(Collect(s, f)) && x in s
    ensures Quiet(f(x))
  {
    forall c | c in f(x) ensures c.needs == [] {
      CollectMember(s, f, c);
    }
  }

  lemma QuietOne(c: Change)
    ensures Quiet([c]) <==> c.needs == []
  {
    assert c in [c];
  }

  // ---------------------------------------------------------------- annotations

  // The annotation names the type, or a type that everything is.
  ghost predicate Admits(a: Option<Annotation>, t: string) {
    t in UnionOf(a) || Top(UnionOf(a))
  }

  ghost predicate KeepsTypes(was: Option<Annotation>, now: Option<Annotation>) {
    forall t :: Admits(was, t) ==> Admits(now, t)
  }

  // The direction says what it should: every type admitted before still is exactly when it is
  // equal or widened, or everything is admitted now.
  lemma WidensIff(was: Option<Annotation>, now: Option<Annotation>)
    ensures KeepsTypes(was, now) <==> DirectionOf(was, now) in {Equal, Widened} || Top(UnionOf(now))
  {
    var a, b := UnionOf(was), UnionOf(now);
    if !Top(b) && DirectionOf(was, now) in {Narrowed, Undecided} {
      var t :| t in a && t !in b;
      assert Admits(was, t) && !Admits(now, t);
    }
  }

  lemma NarrowsIsWidensBack(was: Option<Annotation>, now: Option<Annotation>)
    ensures DirectionOf(was, now) == Narrowed <==> DirectionOf(now, was) == Widened
    ensures DirectionOf(was, now) == Equal <==> DirectionOf(now, was) == Equal
  {
  }

  ghost predicate ParamsWiden(was: seq<Param>, now: seq<Param>) {
    forall p, q :: p in was && q in now && p.name == q.name ==> KeepsTypes(p.annotation, q.annotation)
  }

  // A caller gets no result it did not get before; a protocol's result stays what it was.
  ghost predicate ResultKept(was: Member, now: Member, owner: Owner) {
    && KeepsTypes(now.result, was.result)
    && (owner == OwnerProtocol ==> UnionOf(now.result) == UnionOf(was.result))
  }

  lemma QuietResult(site: Site, was: Member, now: Member)
    requires Quiet(ReturnChange(site, was, now))
    ensures ResultKept(was, now, site.owner)
  {
    if ReturnChange(site, was, now) != [] {
      QuietOne(ReturnChange(site, was, now)[0]);
    }
    NarrowsIsWidensBack(was.result, now.result);
    WidensIff(now.result, was.result);
  }

  // ---------------------------------------------------------------- signatures

  lemma QuietRemoved(site: Site, was: Member, now: Member, p: Param)
    requires Quiet(RemovedParam(site, now)(p))
    ensures exists q :: q in now.params && q.name == p.name
  {
    LookupFinds(now.params, ParamName, p.name);
    if Lookup(now.params, ParamName, p.name).None? {
      QuietOne(RemovedParam(site, now)(p)[0]);
    }
  }

  lemma QuietAdded(site: Site, was: Member, q: Param)
    requires Quiet(AddedParam(site, was)(q)) && NewTo(was.params, q)
    ensures q.default.Some? || q.kind == VarPositional || q.kind == VarKeyword
    ensures site.owner == OwnerCallable
  {
    LookupFinds(was.params, ParamName, q.name);
    QuietOne(AddedParam(site, was)(q)[0]);
  }

  lemma QuietKept(site: Site, was: Member, now: Member, p: Param, q: Param)
    requires WellFormed(was.params) && p in was.params && q.name == p.name
    requires Quiet(KeptParam(site, was, now)(q))
    ensures q.kind == p.kind && !Moved(was, now, q.name)
    ensures p.default.Some? || site.owner == OwnerProtocol ==> TextOfDefault(q.default) == TextOfDefault(p.default)
  {
    LookupDistinct(was.params, ParamName, p);
    QuietConcat(KindChange(site, was, now, p, q) + AnnotationChange(site, p, q), DefaultChange(site, p, q));
    QuietConcat(KindChange(site, was, now, p, q), AnnotationChange(site, p, q));
    if KindChange(site, was, now, p, q) != [] {
      QuietOne(KindChange(site, was, now, p, q)[0]);
    }
    if DefaultChange(site, p, q) != [] {
      QuietOne(DefaultChange(site, p, q)[0]);
    }
  }

  lemma QuietAnnotation(site: Site, was: Member, now: Member, p: Param, q: Param)
    requires WellFormed(was.params) && p in was.params && q.name == p.name
    requires Quiet(KeptParam(site, was, now)(q))
    ensures KeepsTypes(p.annotation, q.annotation)
    ensures DirectionOf(p.annotation, q.annotation) in {Equal, Widened}
  {
    LookupDistinct(was.params, ParamName, p);
    QuietConcat(KindChange(site, was, now, p, q) + AnnotationChange(site, p, q), DefaultChange(site, p, q));
    QuietConcat(KindChange(site, was, now, p, q), AnnotationChange(site, p, q));
    if AnnotationChange(site, p, q) != [] {
      QuietOne(AnnotationChange(site, p, q)[0]);
    }
    WidensIff(p.annotation, q.annotation);
  }

  // Quiet differences, read one parameter at a time.
  ghost predicate QuietParams(site: Site, was: Member, now: Member) {
    && Quiet(Collect(was.params, RemovedParam(site, now)))
    && Quiet(Collect(now.params, AddedParam(site, was)))
    && Quiet(Collect(now.params, KeptParam(site, was, now)))
    && Quiet(ReturnChange(site, was, now))
  }

  lemma QuietSplits(site: Site, was: Member, now: Member)
    requires Quiet(ParamChanges(site, was, now))
    ensures QuietParams(site, was, now)
  {
    var a, b, c := Collect(was.params, RemovedParam(site, now)), Collect(now.params, AddedParam(site, was)),
                   Collect(now.params, KeptParam(site, was, now));
    var d, e := ReturnChange(site, was, now), MarkerChange(site, was, now);
    QuietConcat(a + b + c + d, e);
    QuietConcat(a + b + c, d);
    QuietConcat(a + b, c);
    QuietConcat(a, b);
  }

  // The quiet differences of one name, looked up on both sides.
  lemma QuietPair(site: Site, was: Member, now: Member, p: Param, q: Param)
    requires WellFormed(was.params) && QuietParams(site, was, now)
    requires p in was.params && q in now.params && p.name == q.name
    ensures q.kind == p.kind && !Moved(was, now, q.name)
    ensures p.default.Some? || site.owner == OwnerProtocol ==> TextOfDefault(q.default) == TextOfDefault(p.default)
  {
    QuietCollect(now.params, KeptParam(site, was, now), q);
    QuietKept(site, was, now, p, q);
  }

  lemma QuietPrefix(site: Site, was: Member, now: Member)
    requires WellFormed(was.params) && WellFormed(now.params) && QuietParams(site, was, now)
    ensures PositionalNames(was.params) <= PositionalNames(now.params)
  {
    var a, b := PositionalNames(was.params), PositionalNames(now.params);
    FilterDistinct(was.params, (p: Param) => IsPositional(p.kind), ParamName);
    forall x | x in a ensures x in b && IndexOf(a, x) == IndexOf(b, x) {
      PositionalNamesHold(was.params, x);
      var p :| p in was.params && IsPositional(p.kind) && p.name == x;
      QuietCollect(was.params, RemovedParam(site, now), p);
      QuietRemoved(site, was, now, p);
      var q :| q in now.params && q.name == x;
      QuietPair(site, was, now, p, q);
      PositionalNamesHold(now.params, x);
    }
    forall i, j | 0 <= i < j < |a| ensures a[i] != a[j] {
      assert ParamName(PositionalParams(was.params)[i]) != ParamName(PositionalParams(was.params)[j]);
    }
    SameIndexIsPrefix(a, b);
  }

  lemma QuietIsCompatible(site: Site, was: Member, now: Member)
    requires WellFormed(was.params) && WellFormed(now.params) && QuietParams(site, was, now)
    ensures Compatible(was.params, now.params)
  {
    QuietPrefix(site, was, now);
    forall p, q | p in was.params && q in now.params && p.name == q.name ensures Replaces(p, q) {
      QuietPair(site, was, now, p, q);
    }
    forall p | p in was.params ensures exists q :: q in now.params && q.name == p.name {
      QuietCollect(was.params, RemovedParam(site, now), p);
      QuietRemoved(site, was, now, p);
    }
    forall q | q in now.params && NewTo(was.params, q)
      ensures q.default.Some? || q.kind == VarPositional || q.kind == VarKeyword
    {
      QuietCollect(now.params, AddedParam(site, was), q);
      QuietAdded(site, was, q);
    }
  }

  // No breaking change in a signature: parameters take every type they took, and the result is
  // no type it was not.
  lemma AnnotationSoundness(site: Site, was: Member, now: Member)
    requires WellFormed(was.params) && Quiet(ParamChanges(site, was, now))
    ensures ParamsWiden(was.params, now.params) && ResultKept(was, now, site.owner)
  {
    QuietSplits(site, was, now);
    forall p, q | p in was.params && q in now.params && p.name == q.name
      ensures KeepsTypes(p.annotation, q.annotation)
    {
      QuietCollect(now.params, KeptParam(site, was, now), q);
      QuietAnnotation(site, was, now, p, q);
    }
    QuietResult(site, was, now);
  }

  // No breaking change in a signature: every call that worked still works, with the same
  // arguments and defaults, exactly when no added slot can capture what *args or **kwargs took.
  lemma CallerSoundness(site: Site, was: Member, now: Member)
    requires WellFormed(was.params) && WellFormed(now.params)
    requires Quiet(ParamChanges(site, was, now))
    ensures CallsPreserved(was.params, now.params) <==> NoCapture(was.params, now.params)
    ensures !HasKind(was.params, VarPositional) && !HasKind(was.params, VarKeyword) ==>
              CallsPreserved(was.params, now.params)
  {
    QuietSplits(site, was, now);
    QuietIsCompatible(site, was, now);
    CompatibleServesIff(was.params, now.params);
  }

  // The differ does let a capturing parameter through: (a, *args) to (a, x=1, *args).
  const A := Param("a", Positional, None, None)
  const X := Param("x", Positional, None, Some(DefaultText("1", true)))
  const ARGS := Param("args", VarPositional, None, None)
  const CAPTURED := Member("f", Function, 1, [A, ARGS], None, false)
  const CAPTURING := Member("f", Function, 1, [A, X, ARGS], None, false)

  lemma CapturePositions()
    ensures PositionalNames(CAPTURED.params) == ["a"] && PositionalNames(CAPTURING.params) == ["a", "x"]
  {
    PositionalThenArgs([A]);
    PositionalThenArgs([A, X]);
    assert [A] + [ARGS] == CAPTURED.params && [A, X] + [ARGS] == CAPTURING.params;
  }

  lemma PositionalThenArgs(slots: seq<Param>)
    requires forall p :: p in slots ==> IsPositional(p.kind)
    ensures PositionalNames(slots + [ARGS]) == Map(slots, ParamName)
  {
    var keep := (p: Param) => IsPositional(p.kind);
    FilterAll(slots, keep);
    FilterSnoc(slots, ARGS, keep);
  }

  lemma CaptureKept(site: Site, q: Param)
    requires q == A || q == ARGS
    ensures KeptParam(site, CAPTURED, CAPTURING)(q) == []
  {
    CapturePositions();
    LookupDistinct(CAPTURED.params, ParamName, q);
  }

  lemma CaptureNotRemoved(site: Site, p: Param)
    requires p == A || p == ARGS
    ensures RemovedParam(site, CAPTURING)(p) == []
  {
    assert CAPTURING.params[0] == A && CAPTURING.params[2] == ARGS;
    LookupDistinct(CAPTURING.params, ParamName, p);
  }

  lemma CaptureAdded(site: Site, q: Param)
    requires q in CAPTURING.params && site.owner == OwnerCallable
    ensures Quiet(AddedParam(site, CAPTURED)(q))
    ensures q == X ==> KeptParam(site, CAPTURED, CAPTURING)(q) == []
  {
    LookupFinds(CAPTURED.params, ParamName, q.name);
    if q != X {
      LookupDistinct(CAPTURED.params, ParamName, q);
    }
  }

  lemma CaptureUnchanged(site: Site)
    requires site.owner == OwnerCallable
    ensures Collect(CAPTURED.params, RemovedParam(site, CAPTURING)) == []
    ensures Collect(CAPTURING.params, KeptParam(site, CAPTURED, CAPTURING)) == []
  {
    CaptureNotRemoved(site, A);
    CaptureNotRemoved(site, ARGS);
    CollectEmpty(CAPTURED.params, RemovedParam(site, CAPTURING));
    CaptureKept(site, A);
    CaptureKept(site, ARGS);
    CaptureAdded(site, X);
    CollectEmpty(CAPTURING.params, KeptParam(site, CAPTURED, CAPTURING));
  }

  lemma CaptureChanges(site: Site)
    requires site.owner == OwnerCallable
    ensures Quiet(ParamChanges(site, CAPTURED, CAPTURING))
  {
    CaptureUnchanged(site);
    forall c | c in Collect(CAPTURING.params, AddedParam(site, CAPTURED)) ensures c.needs == [] {
      CollectMember(CAPTURING.params, AddedParam(site, CAPTURED), c);
      var q :| q in CAPTURING.params && c in AddedParam(site, CAPTURED)(q);
      CaptureAdded(site, q);
    }
  }

  lemma CaptureIsNotReported(site: Site)
    requires site.owner == OwnerCallable
    ensures Quiet(ParamChanges(site, CAPTURED, CAPTURING))
    ensures !CallsPreserved(CAPTURED.params, CAPTURING.params)
  {
    CaptureChanges(site);
    CaptureIsCapture();
    QuietYetCaptured(site, CAPTURED, CAPTURING);
  }

  lemma CaptureIsCapture()
    ensures !NoCapture(CAPTURED.params, CAPTURING.params)
    ensures WellFormed(CAPTURED.params) && WellFormed(CAPTURING.params)
  {
    CapturePositions();
    assert ARGS in CAPTURED.params;
  }

  lemma QuietYetCaptured(site: Site, was: Member, now: Member)
    requires WellFormed(was.params) && WellFormed(now.params)
    requires Quiet(ParamChanges(site, was, now)) && !NoCapture(was.params, now.params)
    ensures !CallsPreserved(was.params, now.params)
  {
    CallerSoundness(site, was, now);
  }

  // ---------------------------------------------------------------- protocols

  ghost function Names(params: seq<Param>): set<string> {
    set p | p in params :: p.name
  }

  ghost predicate Alike(p: Param, q: Param) {
    p.kind == q.kind && TextOfDefault(p.default) == TextOfDefault(q.default)
  }

  // Same names, same positional order, same kinds and defaults.
  ghost predicate SameShape(was: seq<Param>, now: seq<Param>) {
    && Names(was) == Names(now)
    && PositionalNames(was) == PositionalNames(now)
    && forall p, q | p in was && q in now && p.name == q.name :: Alike(p, q)
  }

  lemma SameShapeKeywords(was: seq<Param>, now: seq<Param>)
    requires SameShape(was, now)
    ensures KeywordNames(was) <= KeywordNames(now)
  {
    forall name | name in KeywordNames(was) ensures name in KeywordNames(now) {
      var p :| p in was && Keywordable(p.kind) && p.name == name;
      assert name in Names(now);
      var q :| q in now && q.name == name;
      assert Alike(p, q);
    }
  }

  lemma SameShapeBack(was: seq<Param>, now: seq<Param>)
    requires SameShape(was, now)
    ensures SameShape(now, was)
  {
    forall p, q | p in now && q in was && p.name == q.name ensures Alike(p, q) {
      assert Alike(q, p);
    }
  }

  lemma SameShapeCompatible(was: seq<Param>, now: seq<Param>)
    requires SameShape(was, now)
    ensures Compatible(was, now)
  {
    forall p | p in was ensures exists q :: q in now && q.name == p.name {
      assert p.name in Names(now);
    }
    forall q | q in now ensures !NewTo(was, q) {
      assert q.name in Names(was);
    }
    forall p, q | p in was && q in now && p.name == q.name ensures Replaces(p, q) {
      assert Alike(p, q);
    }
  }

  lemma SameShapeServes(was: seq<Param>, now: seq<Param>)
    requires WellFormed(was) && WellFormed(now) && SameShape(was, now)
    ensures CallsPreserved(was, now)
  {
    SameShapeCompatible(was, now);
    SameShapeKeywords(was, now);
    SameShapeBack(was, now);
    SameShapeKeywords(now, was);
    CompatibleServes(was, now);
  }

  lemma QuietProtocolShape(site: Site, was: Member, now: Member)
    requires WellFormed(was.params) && WellFormed(now.params)
    requires site.owner == OwnerProtocol && QuietParams(site, was, now)
    ensures SameShape(was.params, now.params)
  {
    QuietIsCompatible(site, was, now);
    forall q | q in now.params ensures q.name in Names(was.params) {
      if NewTo(was.params, q) {
        QuietCollect(now.params, AddedParam(site, was), q);
        QuietAdded(site, was, q);
      }
    }
    forall p, q | p in was.params && q in now.params && p.name == q.name ensures Alike(p, q) {
      QuietPair(site, was, now, p, q);
    }
    var a, b := PositionalNames(was.params), PositionalNames(now.params);
    forall x | x in b ensures x in a {
      PositionalNamesHold(now.params, x);
      var q :| q in now.params && IsPositional(q.kind) && q.name == x;
      assert q.name in Names(was.params);
      var p :| p in was.params && p.name == x;
      assert Alike(p, q);
      PositionalNamesHold(was.params, x);
    }
    NoSlotTwice(now.params);
    PrefixOfSameNames(a, b);
  }

  lemma BeyondIsNew(a: seq<string>, b: seq<string>, k: nat)
    requires a <= b && |a| <= k < |b|
    requires forall i, j :: 0 <= i < j < |b| ==> b[i] != b[j]
    ensures b[k] in b && b[k] !in a
  {
    forall i | 0 <= i < |a| ensures a[i] != b[k] {
      assert a[i] == b[i];
    }
  }

  lemma PrefixOfSameNames(a: seq<string>, b: seq<string>)
    requires a <= b && (forall x :: x in b ==> x in a)
    requires forall i, j :: 0 <= i < j < |b| ==> b[i] != b[j]
    ensures a == b
  {
    if |a| < |b| {
      BeyondIsNew(a, b, |a|);
      assert false;
    }
  }

  // A quiet protocol member keeps its signature in both directions: what binds under the one
  // binds under the other, the same way, so neither implementers nor callers notice.
  lemma ImplementerSoundness(site: Site, was: Member, now: Member)
    requires WellFormed(was.params) && WellFormed(now.params)
    requires site.owner == OwnerProtocol && Quiet(ParamChanges(site, was, now))
    ensures CallsPreserved(was.params, now.params) && CallsPreserved(now.params, was.params)
  {
    QuietSplits(site, was, now);
    QuietProtocolShape(site, was, now);
    SameShapeServes(was.params, now.params);
    SameShapeBack(was.params, now.params);
    SameShapeServes(now.params, was.params);
  }

  // The differ does let a protocol's parameter widen: f(a: int) to f(a: int | str).
  const NARROW := Param("a", Positional, Some(Annotation("int", {"int"})), None)
  const WIDE := Param("a", Positional, Some(Annotation("int | str", {"int", "str"})), None)
  const TAKES_NARROW := Member("f", Method, 1, [NARROW], None, false)
  const TAKES_WIDE := Member("f", Method, 1, [WIDE], None, false)

  lemma OneParamKept(site: Site)
    ensures PositionalNames([NARROW]) == ["a"] && PositionalNames([WIDE]) == ["a"]
    ensures RemovedParam(site, TAKES_WIDE)(NARROW) == [] && AddedParam(site, TAKES_NARROW)(WIDE) == []
    ensures KeptParam(site, TAKES_NARROW, TAKES_WIDE)(WIDE) == AnnotationChange(site, NARROW, WIDE)
  {
    OneSlot(NARROW);
    OneSlot(WIDE);
  }

  lemma OneSlot(p: Param)
    requires IsPositional(p.kind)
    ensures PositionalNames([p]) == [p.name] && Lookup([p], ParamName, p.name) == Some(p)
  {
    FilterAll([p], (x: Param) => IsPositional(x.kind));
  }

  lemma WideningChanges(site: Site)
    ensures ParamChanges(site, TAKES_NARROW, TAKES_WIDE) == AnnotationChange(site, NARROW, WIDE)
  {
    OneParamKept(site);
    CollectSnoc([], NARROW, RemovedParam(site, TAKES_WIDE));
    CollectSnoc([], WIDE, AddedParam(site, TAKES_NARROW));
    CollectSnoc([], WIDE, KeptParam(site, TAKES_NARROW, TAKES_WIDE));
    assert [] + [NARROW] == [NARROW] && [] + [WIDE] == [WIDE];
  }

  // What the other direction takes: the parameter stays as it was, or took everything already.
  ghost predicate TypesStay(was: seq<Param>, now: seq<Param>) {
    forall p, q :: p in was && q in now && p.name == q.name ==>
      DirectionOf(p.annotation, q.annotation) == Equal || Top(UnionOf(p.annotation))
  }

  // When the differ asks for no entry, an implementer annotated as before takes every type the
  // protocol now admits exactly when no parameter widened.
  lemma ImplementerTypesIff(site: Site, was: Member, now: Member)
    requires WellFormed(was.params) && Quiet(ParamChanges(site, was, now))
    ensures ParamsWiden(now.params, was.params) <==> TypesStay(was.params, now.params)
  {
    QuietSplits(site, was, now);
    forall p, q | p in was.params && q in now.params && p.name == q.name
      ensures KeepsTypes(q.annotation, p.annotation)
         <==> DirectionOf(p.annotation, q.annotation) == Equal || Top(UnionOf(p.annotation))
    {
      QuietCollect(now.params, KeptParam(site, was, now), q);
      QuietAnnotation(site, was, now, p, q);
      NarrowsIsWidensBack(q.annotation, p.annotation);
      NarrowsIsWidensBack(p.annotation, q.annotation);
      WidensIff(q.annotation, p.annotation);
    }
  }

  // No entry is asked for, and an implementer annotated as before does not take the new type.
  lemma WidenedProtocolIsNotReported(site: Site)
    requires site.owner == OwnerProtocol
    ensures Quiet(ParamChanges(site, TAKES_NARROW, TAKES_WIDE))
    ensures !KeepsTypes(WIDE.annotation, NARROW.annotation)
  {
    WideningChanges(site);
    assert "str" in UnionOf(WIDE.annotation) && "str" !in UnionOf(NARROW.annotation);
    assert DirectionOf(NARROW.annotation, WIDE.annotation) == Widened by {
      assert "str" !in {"int"};
    }
    QuietOne(AnnotationChange(site, NARROW, WIDE)[0]);
    assert Admits(WIDE.annotation, "str") && !Admits(NARROW.annotation, "str");
  }
}
