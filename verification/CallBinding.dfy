// How Python binds a call to a signature, and when one signature can stand in for another.
module CallBinding {
  import opened Common
  import opened ContractSurface

  // The argument objects of a call; a number stands for each object.
  datatype Call = Call(positional: seq<int>, keywords: map<string, int>)

  datatype Bound =
    | Argument(value: int)
    | DefaultValue(text: string)
    | Star(values: seq<int>)
    | DoubleStar(entries: map<string, int>)

  predicate Keywordable(k: ParamKind) {
    k == Positional || k == KeywordOnly
  }

  // The names a keyword argument can address.
  ghost function KeywordNames(params: seq<Param>): set<string> {
    set p | p in params && Keywordable(p.kind) :: p.name
  }

  ghost predicate HasKind(params: seq<Param>, k: ParamKind) {
    exists p :: p in params && p.kind == k
  }

  // The positional argument p takes, if the call gives that many.
  ghost predicate TakesPosition(params: seq<Param>, call: Call, p: Param) {
    && IsPositional(p.kind)
    && p.name in PositionalNames(params)
    && IndexOf(PositionalNames(params), p.name) < |call.positional|
  }

  ghost predicate TakesKeyword(call: Call, p: Param) {
    Keywordable(p.kind) && p.name in call.keywords
  }

  predicate MustBind(p: Param) {
    p.default.None? && (IsPositional(p.kind) || p.kind == KeywordOnly)
  }

  // What Python's grammar gives every signature: unique names, one *args, one **kwargs.
  ghost predicate WellFormed(params: seq<Param>) {
    && Distinct(params, ParamName)
    && (forall p, q | p in params && q in params && p.kind == q.kind ::
          p.kind == VarPositional || p.kind == VarKeyword ==> p == q)
  }

  // The call raises no TypeError.
  ghost predicate Accepts(params: seq<Param>, call: Call) {
    && (|call.positional| <= |PositionalNames(params)| || HasKind(params, VarPositional))
    && (forall k :: k in call.keywords ==> k in KeywordNames(params) || HasKind(params, VarKeyword))
    && (forall p :: p in params && TakesPosition(params, call, p) ==> !TakesKeyword(call, p))
    && (forall p :: p in params && MustBind(p) ==> TakesPosition(params, call, p) || TakesKeyword(call, p))
  }

  ghost function Binding(params: seq<Param>, call: Call, p: Param): Bound {
    if p.kind == VarPositional then
      var n := |PositionalNames(params)|;
      Star(if |call.positional| <= n then [] else call.positional[n..])
    else if p.kind == VarKeyword then
      DoubleStar(map k | k in call.keywords && k !in KeywordNames(params) :: call.keywords[k])
    else if TakesPosition(params, call, p) then
      Argument(call.positional[IndexOf(PositionalNames(params), p.name)])
    else if TakesKeyword(call, p) then Argument(call.keywords[p.name])
    else DefaultValue(if p.default.Some? then p.default.value.text else "")
  }

  // What an added parameter receives from a call that does not know it.
  ghost function Untouched(p: Param): Bound {
    match p.kind
    case VarPositional => Star([])
    case VarKeyword => DoubleStar(map[])
    case _ => DefaultValue(if p.default.Some? then p.default.value.text else "")
  }

  ghost predicate NewTo(was: seq<Param>, q: Param) {
    forall p :: p in was ==> p.name != q.name
  }

  // The call binds under both signatures and says the same thing to each.
  ghost predicate SameCall(was: seq<Param>, now: seq<Param>, call: Call) {
    && Accepts(now, call)
    && (forall p, q :: p in was && q in now && p.name == q.name ==> Binding(now, call, q) == Binding(was, call, p))
    && (forall q :: q in now && NewTo(was, q) ==> Binding(now, call, q) == Untouched(q))
  }

  ghost predicate CallsPreserved(was: seq<Param>, now: seq<Param>) {
    forall call :: Accepts(was, call) ==> SameCall(was, now, call)
  }

  // ---------------------------------------------------------------- standing in

  ghost predicate KindFits(was: ParamKind, now: ParamKind) {
    now == was || (was == KeywordOnly && now == Positional)
  }

  ghost predicate Replaces(p: Param, q: Param) {
    && q.name == p.name
    && KindFits(p.kind, q.kind)
    && (p.default.Some? ==> TextOfDefault(q.default) == TextOfDefault(p.default))
  }

  // The old positional slots come first and unchanged, every old parameter has a
  // replacement, and no added parameter has to be given.
  ghost predicate Compatible(was: seq<Param>, now: seq<Param>) {
    && PositionalNames(was) <= PositionalNames(now)
    && (forall p, q :: p in was && q in now && p.name == q.name ==> Replaces(p, q))
    && (forall p :: p in was ==> exists q :: q in now && q.name == p.name)
    && (forall q :: q in now && NewTo(was, q) ==>
          q.default.Some? || q.kind == VarPositional || q.kind == VarKeyword)
  }

  // No new slot can capture an argument that the old *args or **kwargs collected.
  ghost predicate NoCapture(was: seq<Param>, now: seq<Param>) {
    && (HasKind(was, VarPositional) ==> PositionalNames(now) == PositionalNames(was))
    && (HasKind(was, VarKeyword) ==> KeywordNames(now) == KeywordNames(was))
  }

  lemma PositionalNamesHold(params: seq<Param>, name: string)
    ensures name in PositionalNames(params)
       <==> exists p :: p in params && IsPositional(p.kind) && p.name == name
  {
    var keep := (p: Param) => IsPositional(p.kind);
    forall p ensures p in PositionalParams(params) <==> p in params && keep(p) {
      FilterMember(params, keep, p);
    }
    if name in PositionalNames(params) {
      var i :| 0 <= i < |PositionalNames(params)| && PositionalNames(params)[i] == name;
      assert PositionalParams(params)[i] in PositionalParams(params);
    }
    if exists p :: p in params && IsPositional(p.kind) && p.name == name {
      var p :| p in params && IsPositional(p.kind) && p.name == name;
      assert p in PositionalParams(params);
      var i :| 0 <= i < |PositionalParams(params)| && PositionalParams(params)[i] == p;
      assert PositionalNames(params)[i] == name;
    }
  }

  lemma SameName(params: seq<Param>, p: Param, q: Param)
    requires Distinct(params, ParamName) && p in params && q in params && p.name == q.name
    ensures p == q
  {
    var i :| 0 <= i < |params| && params[i] == p;
    var j :| 0 <= j < |params| && params[j] == q;
  }

  lemma {:induction false} IndexInPrefix(a: seq<string>, b: seq<string>, x: string)
    requires a <= b && x in a
    ensures x in b && IndexOf(a, x) == IndexOf(b, x)
  {
    assert x in b;
    if a[0] != x {
      IndexInPrefix(a[1..], b[1..], x);
    }
  }

  lemma {:induction false} IndexBeyond(a: seq<string>, b: seq<string>, x: string)
    requires a <= b && x in b && x !in a
    ensures |a| <= IndexOf(b, x)
  {
    if a != [] {
      IndexBeyond(a[1..], b[1..], x);
    }
  }

  // Replacing a parameter keeps what it receives.
  lemma ReplacementTakesSame(was: seq<Param>, now: seq<Param>, call: Call, p: Param, q: Param)
    requires WellFormed(was) && WellFormed(now)
    requires Compatible(was, now) && NoCapture(was, now) && Accepts(was, call)
    requires p in was && q in now && p.name == q.name
    requires p.kind != VarPositional && p.kind != VarKeyword
    ensures TakesPosition(now, call, q) <==> TakesPosition(was, call, p)
    ensures TakesKeyword(call, q) <==> TakesKeyword(call, p)
    ensures TakesPosition(was, call, p) ==>
              IndexOf(PositionalNames(now), q.name) == IndexOf(PositionalNames(was), p.name)
  {
    assert Replaces(p, q);
    PositionalNamesHold(was, p.name);
    PositionalNamesHold(now, q.name);
    if IsPositional(p.kind) {
      IndexInPrefix(PositionalNames(was), PositionalNames(now), p.name);
    } else if IsPositional(q.kind) {
      forall r | r in was && IsPositional(r.kind) ensures r.name != p.name {
        if r.name == p.name { SameName(was, p, r); }
      }
      IndexBeyond(PositionalNames(was), PositionalNames(now), q.name);
    }
  }

  lemma AddedTakesNoPosition(was: seq<Param>, now: seq<Param>, call: Call, q: Param)
    requires Compatible(was, now) && NoCapture(was, now) && Accepts(was, call)
    requires q in now && NewTo(was, q)
    ensures !TakesPosition(now, call, q)
  {
    PositionalNamesHold(was, q.name);
    PositionalNamesHold(now, q.name);
    if IsPositional(q.kind) {
      IndexBeyond(PositionalNames(was), PositionalNames(now), q.name);
    }
  }

  lemma AddedTakesNoKeyword(was: seq<Param>, now: seq<Param>, call: Call, q: Param)
    requires NoCapture(was, now) && Accepts(was, call)
    requires q in now && NewTo(was, q)
    ensures !TakesKeyword(call, q)
  {
    if Keywordable(q.kind) {
      assert q.name in KeywordNames(now);
      assert q.name !in KeywordNames(was);
    }
  }

  lemma KeywordNamesGrow(was: seq<Param>, now: seq<Param>, name: string)
    requires Compatible(was, now) && name in KeywordNames(was)
    ensures name in KeywordNames(now)
  {
    var p :| p in was && Keywordable(p.kind) && p.name == name;
    var q :| q in now && q.name == p.name;
    assert Replaces(p, q);
  }

  lemma KindsKept(was: seq<Param>, now: seq<Param>, k: ParamKind)
    requires Compatible(was, now) && HasKind(was, k) && (k == VarPositional || k == VarKeyword)
    ensures HasKind(now, k)
  {
    var p :| p in was && p.kind == k;
    var q :| q in now && q.name == p.name;
    assert Replaces(p, q);
  }

  lemma KeywordsStillKnown(was: seq<Param>, now: seq<Param>, call: Call)
    requires Compatible(was, now) && Accepts(was, call)
    ensures forall k :: k in call.keywords ==> k in KeywordNames(now) || HasKind(now, VarKeyword)
  {
    if HasKind(was, VarKeyword) {
      KindsKept(was, now, VarKeyword);
    }
    forall k | k in call.keywords && k in KeywordNames(was) ensures k in KeywordNames(now) {
      KeywordNamesGrow(was, now, k);
    }
  }

  // What accepting a call asks of one parameter.
  ghost predicate BindsOnce(now: seq<Param>, call: Call, q: Param) {
    && (TakesPosition(now, call, q) ==> !TakesKeyword(call, q))
    && (MustBind(q) ==> TakesPosition(now, call, q) || TakesKeyword(call, q))
  }

  lemma AddedStillBinds(was: seq<Param>, now: seq<Param>, call: Call, q: Param)
    requires WellFormed(was) && WellFormed(now)
    requires Compatible(was, now) && NoCapture(was, now) && Accepts(was, call) && q in now && NewTo(was, q)
    ensures BindsOnce(now, call, q)
  {
    AddedTakesNoPosition(was, now, call, q);
    AddedTakesNoKeyword(was, now, call, q);
  }

  lemma ReplacementStillBinds(was: seq<Param>, now: seq<Param>, call: Call, p: Param, q: Param)
    requires WellFormed(was) && WellFormed(now)
    requires Compatible(was, now) && NoCapture(was, now) && Accepts(was, call)
    requires p in was && q in now && p.name == q.name
    ensures BindsOnce(now, call, q)
  {
    assert Replaces(p, q);
    if p.kind != VarPositional && p.kind != VarKeyword {
      ReplacementTakesSame(was, now, call, p, q);
      StillBindsOnce(was, now, call, p, q);
    }
  }

  lemma StillBindsOnce(was: seq<Param>, now: seq<Param>, call: Call, p: Param, q: Param)
    requires Accepts(was, call) && p in was && Replaces(p, q) && p.kind != VarPositional && p.kind != VarKeyword
    requires TakesPosition(now, call, q) <==> TakesPosition(was, call, p)
    requires TakesKeyword(call, q) <==> TakesKeyword(call, p)
    ensures BindsOnce(now, call, q)
  {
    assert MustBind(q) ==> MustBind(p);
  }

  lemma ParamStillBinds(was: seq<Param>, now: seq<Param>, call: Call, q: Param)
    requires WellFormed(was) && WellFormed(now)
    requires Compatible(was, now) && NoCapture(was, now) && Accepts(was, call) && q in now
    ensures BindsOnce(now, call, q)
  {
    if NewTo(was, q) {
      AddedStillBinds(was, now, call, q);
    } else {
      var p :| p in was && p.name == q.name;
      ReplacementStillBinds(was, now, call, p, q);
    }
  }

  lemma StillAccepts(was: seq<Param>, now: seq<Param>, call: Call)
    requires WellFormed(was) && WellFormed(now)
    requires Compatible(was, now) && NoCapture(was, now) && Accepts(was, call)
    ensures Accepts(now, call)
  {
    if HasKind(was, VarPositional) {
      KindsKept(was, now, VarPositional);
    }
    KeywordsStillKnown(was, now, call);
    forall q | q in now ensures BindsOnce(now, call, q) {
      ParamStillBinds(was, now, call, q);
    }
  }

  lemma SameBinding(was: seq<Param>, now: seq<Param>, call: Call, p: Param, q: Param)
    requires WellFormed(was) && WellFormed(now)
    requires Compatible(was, now) && NoCapture(was, now) && Accepts(was, call)
    requires p in was && q in now && p.name == q.name
    ensures Binding(now, call, q) == Binding(was, call, p)
  {
    assert Replaces(p, q);
    if p.kind == VarPositional {
      assert HasKind(was, VarPositional);
    } else if p.kind == VarKeyword {
      assert HasKind(was, VarKeyword);
    } else {
      ReplacementTakesSame(was, now, call, p, q);
    }
  }

  // An old *args or **kwargs is the new signature's only parameter of its kind.
  lemma VariadicKept(was: seq<Param>, now: seq<Param>, p: Param, q: Param)
    requires WellFormed(now) && Compatible(was, now) && p in was && q in now
    requires q.kind == p.kind && (p.kind == VarPositional || p.kind == VarKeyword)
    ensures q.name == p.name
  {
    var r :| r in now && r.name == p.name;
    assert Replaces(p, r);
  }

  // An added *args or **kwargs means the old signature had none.
  lemma AddedVarIsNew(was: seq<Param>, now: seq<Param>, q: Param)
    requires WellFormed(now) && Compatible(was, now)
    requires q in now && NewTo(was, q) && (q.kind == VarPositional || q.kind == VarKeyword)
    ensures !HasKind(was, q.kind)
  {
    if HasKind(was, q.kind) {
      var p :| p in was && p.kind == q.kind;
      VariadicKept(was, now, p, q);
    }
  }

  lemma AddedStarEmpty(was: seq<Param>, now: seq<Param>, call: Call, q: Param)
    requires PositionalNames(was) <= PositionalNames(now)
    requires Accepts(was, call) && !HasKind(was, VarPositional) && q.kind == VarPositional
    ensures Binding(now, call, q) == Star([])
  {
    assert |call.positional| <= |PositionalNames(was)|;
  }

  lemma AddedDoubleStarEmpty(was: seq<Param>, now: seq<Param>, call: Call, q: Param)
    requires Compatible(was, now)
    requires Accepts(was, call) && !HasKind(was, VarKeyword) && q.kind == VarKeyword
    ensures Binding(now, call, q) == DoubleStar(map[])
  {
    var rest := map k | k in call.keywords && k !in KeywordNames(now) :: call.keywords[k];
    forall k | k in call.keywords ensures k in KeywordNames(now) {
      KeywordNamesGrow(was, now, k);
    }
    assert rest == map[];
  }

  lemma AddedUntouched(was: seq<Param>, now: seq<Param>, call: Call, q: Param)
    requires WellFormed(was) && WellFormed(now)
    requires Compatible(was, now) && NoCapture(was, now) && Accepts(was, call)
    requires q in now && NewTo(was, q)
    ensures Binding(now, call, q) == Untouched(q)
  {
    if q.kind == VarPositional {
      AddedVarIsNew(was, now, q);
      AddedStarEmpty(was, now, call, q);
    } else if q.kind == VarKeyword {
      AddedVarIsNew(was, now, q);
      AddedDoubleStarEmpty(was, now, call, q);
    } else {
      AddedTakesNoPosition(was, now, call, q);
      AddedTakesNoKeyword(was, now, call, q);
    }
  }

  // A compatible signature with no capturing slot serves every old call the same way.
  lemma CompatibleServes(was: seq<Param>, now: seq<Param>)
    requires WellFormed(was) && WellFormed(now)
    requires Compatible(was, now) && NoCapture(was, now)
    ensures CallsPreserved(was, now)
  {
    forall call | Accepts(was, call) ensures SameCall(was, now, call) {
      StillAccepts(was, now, call);
      forall p, q | p in was && q in now && p.name == q.name
        ensures Binding(now, call, q) == Binding(was, call, p)
      {
        SameBinding(was, now, call, p, q);
      }
      forall q | q in now && NewTo(was, q)
        ensures Binding(now, call, q) == Untouched(q)
      {
        AddedUntouched(was, now, call, q);
      }
    }
  }

  // ---------------------------------------------------------------- when capture happens

  // Every positional slot filled with its number, `extra` arguments beyond, every keyword-only
  // name given.
  ghost function FullCall(params: seq<Param>, extra: nat, more: map<string, int>): Call {
    Call(seq(|PositionalNames(params)| + extra, i => i),
         (map p | p in params && p.kind == KeywordOnly :: p.name := 0) + more)
  }

  lemma FullCallAccepted(params: seq<Param>, extra: nat, more: map<string, int>)
    requires WellFormed(params)
    requires extra > 0 ==> HasKind(params, VarPositional)
    requires forall k :: k in more ==> k !in KeywordNames(params) && HasKind(params, VarKeyword)
    ensures Accepts(params, FullCall(params, extra, more))
  {
    var call := FullCall(params, extra, more);
    forall p | p in params
      ensures TakesPosition(params, call, p) ==> !TakesKeyword(call, p)
      ensures MustBind(p) ==> TakesPosition(params, call, p) || TakesKeyword(call, p)
    {
      PositionalNamesHold(params, p.name);
      if p.kind == Positional && p.name in call.keywords {
        assert p.name in KeywordNames(params);
        var q :| q in params && q.kind == KeywordOnly && q.name == p.name;
        SameName(params, p, q);
      }
    }
  }

  // With *args, one argument too many lands in a new positional slot.
  lemma NewSlotCaptures(was: seq<Param>, now: seq<Param>)
    requires WellFormed(was) && Compatible(was, now)
    requires HasKind(was, VarPositional) && PositionalNames(now) != PositionalNames(was)
    ensures !CallsPreserved(was, now)
  {
    var call := FullCall(was, 1, map[]);
    FullCallAccepted(was, 1, map[]);
    var p :| p in was && p.kind == VarPositional;
    var q :| q in now && q.name == p.name;
    assert Replaces(p, q);
    assert |Binding(was, call, p).values| == 1;
    assert Binding(now, call, q).values == [];
    assert !SameCall(was, now, call);
  }

  // With **kwargs, a keyword the old signature collected now names a parameter.
  lemma NewNameCaptures(was: seq<Param>, now: seq<Param>)
    requires WellFormed(was) && Compatible(was, now)
    requires HasKind(was, VarKeyword) && KeywordNames(now) != KeywordNames(was)
    ensures !CallsPreserved(was, now)
  {
    forall k | k in KeywordNames(was) ensures k in KeywordNames(now) {
      KeywordNamesGrow(was, now, k);
    }
    var x :| x in KeywordNames(now) && x !in KeywordNames(was);
    FullCallAccepted(was, 0, map[x := 0]);
    KeywordCaptured(was, now, FullCall(was, 0, map[x := 0]), x);
  }

  lemma KeywordCaptured(was: seq<Param>, now: seq<Param>, call: Call, x: string)
    requires Compatible(was, now) && HasKind(was, VarKeyword)
    requires x in call.keywords && x in KeywordNames(now) && x !in KeywordNames(was)
    ensures !SameCall(was, now, call)
  {
    var p :| p in was && p.kind == VarKeyword;
    var q :| q in now && q.name == p.name;
    assert Replaces(p, q);
    assert x in Binding(was, call, p).entries;
    assert x !in Binding(now, call, q).entries;
  }

  // A compatible signature serves every old call exactly when nothing can be captured.
  lemma CompatibleServesIff(was: seq<Param>, now: seq<Param>)
    requires WellFormed(was) && WellFormed(now) && Compatible(was, now)
    ensures CallsPreserved(was, now) <==> NoCapture(was, now)
  {
    if NoCapture(was, now) {
      CompatibleServes(was, now);
    } else if HasKind(was, VarPositional) && PositionalNames(now) != PositionalNames(was) {
      NewSlotCaptures(was, now);
    } else {
      NewNameCaptures(was, now);
    }
  }

  // The same index in two lists, for each name of the first, makes the first a prefix.
  lemma SameIndexIsPrefix(a: seq<string>, b: seq<string>)
    requires forall i, j :: 0 <= i < j < |a| ==> a[i] != a[j]
    requires forall x :: x in a ==> x in b && IndexOf(a, x) == IndexOf(b, x)
    ensures a <= b
  {
    forall i | 0 <= i < |a| ensures i < |b| && a[i] == b[i] {
      assert a[i] in a;
      assert IndexOf(a, a[i]) == i;
    }
    if |a| > 0 {
      assert a[|a| - 1] in a;
    }
  }

  lemma NoSlotTwice(params: seq<Param>)
    requires WellFormed(params)
    ensures forall i, j :: 0 <= i < j < |PositionalNames(params)| ==>
              PositionalNames(params)[i] != PositionalNames(params)[j]
  {
    FilterDistinct(params, (p: Param) => IsPositional(p.kind), ParamName);
    forall i, j | 0 <= i < j < |PositionalNames(params)|
      ensures PositionalNames(params)[i] != PositionalNames(params)[j]
    {
      assert ParamName(PositionalParams(params)[i]) != ParamName(PositionalParams(params)[j]);
    }
  }

  // ---------------------------------------------------------------- signatures without stars

  // What a dataclass generates: no *args, no **kwargs, every parameter has a keyword.
  ghost predicate Starless(params: seq<Param>) {
    forall p :: p in params ==> Keywordable(p.kind)
  }

  // Every parameter but the named one by keyword.
  ghost function KeywordCall(params: seq<Param>, but: string): Call {
    Call([], map p | p in params && p.name != but :: p.name := 0)
  }

  lemma KeywordCallAccepted(params: seq<Param>, p: Param)
    requires WellFormed(params) && Starless(params) && p in params && p.default.Some?
    ensures Accepts(params, KeywordCall(params, p.name))
  {
    forall q | q in params && MustBind(q) ensures TakesKeyword(KeywordCall(params, p.name), q) {
      if q.name == p.name {
        SameName(params, p, q);
      }
    }
  }

  // Kept calls keep defaults: leave the parameter out.
  lemma PreservedDefault(was: seq<Param>, now: seq<Param>, p: Param, q: Param)
    requires WellFormed(was) && WellFormed(now) && Starless(was) && Starless(now) && CallsPreserved(was, now)
    requires p in was && q in now && p.name == q.name && p.default.Some?
    ensures TextOfDefault(q.default) == TextOfDefault(p.default)
  {
    var call := KeywordCall(was, p.name);
    KeywordCallAccepted(was, p);
    assert SameCall(was, now, call);
    assert Binding(now, call, q) == Binding(was, call, p);
    assert !TakesPosition(now, call, q) && !TakesKeyword(call, q);
  }

  ghost function AllByKeyword(params: seq<Param>): Call {
    Call([], map p | p in params :: p.name := 0)
  }

  lemma AllByKeywordAccepted(params: seq<Param>)
    requires Starless(params)
    ensures Accepts(params, AllByKeyword(params))
  {
    var call := AllByKeyword(params);
    assert forall p :: p in params ==> TakesKeyword(call, p) && p.name in KeywordNames(params);
  }

  // Kept calls keep names, and ask for nothing new: give everything by keyword.
  lemma PreservedName(was: seq<Param>, now: seq<Param>, p: Param)
    requires Starless(was) && Starless(now) && CallsPreserved(was, now) && p in was
    ensures exists q :: q in now && q.name == p.name
  {
    AllByKeywordAccepted(was);
    assert SameCall(was, now, AllByKeyword(was));
    assert p.name in AllByKeyword(was).keywords;
    assert p.name in KeywordNames(now);
  }

  lemma PreservedAddition(was: seq<Param>, now: seq<Param>, q: Param)
    requires Starless(was) && Starless(now) && CallsPreserved(was, now) && q in now && NewTo(was, q)
    ensures q.default.Some?
  {
    AllByKeywordAccepted(was);
    assert SameCall(was, now, AllByKeyword(was));
    assert !TakesPosition(now, AllByKeyword(was), q) && !TakesKeyword(AllByKeyword(was), q);
  }

  // Kept calls keep positions: fill every slot with its number.
  lemma PreservedSlot(was: seq<Param>, now: seq<Param>, p: Param, q: Param)
    requires WellFormed(was) && Starless(was) && Starless(now) && CallsPreserved(was, now)
    requires p in was && q in now && p.name == q.name && IsPositional(p.kind)
    ensures p.name in PositionalNames(was) && p.name in PositionalNames(now)
    ensures IndexOf(PositionalNames(was), p.name) == IndexOf(PositionalNames(now), p.name)
  {
    var call := FullCall(was, 0, map[]);
    FullCallAccepted(was, 0, map[]);
    assert SameCall(was, now, call);
    assert Binding(now, call, q) == Binding(was, call, p);
    PositionalNamesHold(was, p.name);
    assert TakesPosition(was, call, p);
  }

  lemma PreservedPrefix(was: seq<Param>, now: seq<Param>)
    requires WellFormed(was) && Starless(was) && Starless(now) && CallsPreserved(was, now)
    ensures PositionalNames(was) <= PositionalNames(now)
  {
    var a, b := PositionalNames(was), PositionalNames(now);
    forall x | x in a ensures x in b && IndexOf(a, x) == IndexOf(b, x) {
      PositionalNamesHold(was, x);
      var p :| p in was && IsPositional(p.kind) && p.name == x;
      PreservedName(was, now, p);
      var q :| q in now && q.name == p.name;
      PreservedSlot(was, now, p, q);
    }
    NoSlotTwice(was);
    SameIndexIsPrefix(a, b);
  }

  lemma PreservedReplaces(was: seq<Param>, now: seq<Param>, p: Param, q: Param)
    requires WellFormed(was) && WellFormed(now) && Starless(was) && Starless(now) && CallsPreserved(was, now)
    requires p in was && q in now && p.name == q.name
    ensures Replaces(p, q)
  {
    if p.default.Some? {
      PreservedDefault(was, now, p, q);
    }
    if p.kind == Positional {
      PreservedSlot(was, now, p, q);
      PositionalNamesHold(now, q.name);
      var r :| r in now && IsPositional(r.kind) && r.name == q.name;
      SameName(now, q, r);
    }
  }

  // Without stars compatibility is exactly what callers need.
  lemma StarlessServesIff(was: seq<Param>, now: seq<Param>)
    requires WellFormed(was) && WellFormed(now) && Starless(was) && Starless(now)
    ensures CallsPreserved(was, now) <==> Compatible(was, now)
  {
    if Compatible(was, now) {
      CompatibleServes(was, now);
    }
    if CallsPreserved(was, now) {
      PreservedPrefix(was, now);
      forall p | p in was ensures exists q :: q in now && q.name == p.name {
        PreservedName(was, now, p);
      }
      forall q | q in now && NewTo(was, q) ensures q.default.Some? {
        PreservedAddition(was, now, q);
      }
      forall p, q | p in was && q in now && p.name == q.name ensures Replaces(p, q) {
        PreservedReplaces(was, now, p, q);
      }
    }
  }
}
