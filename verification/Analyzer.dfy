/**
  The minimum-version analyzer: a walk over the operations that scores their own version,
  the fields they use, their attributes and, once each, the types they mention. At the
  version it returns the writer accepts the module.
  */
module Analyzer {
  import opened Base
  import opened BitFields
  import opened Ir
  import opened AttrCodec
  import opened OpCodec
  import opened TypeCodec
  import opened MinVersion

  const MIN := MIN_SUPPORTED_VERSION

  // ---------------------------------------------------------------- scores of attributes

  predicate Evolved(since: Version, p: ParamSchema, param: Option<Attr>) {
    p.optional && since.Before(p.since) && param.Some?
  }

  /** The chain of tests stops at the first newer parameter that is there. */
  function FirstEvolved(since: Version, ps: seq<ParamSchema>, params: seq<Option<Attr>>): Version
    requires |params| == |ps|
  {
    if ps == [] then LOWEST
    else if Evolved(since, ps[0], params[0]) then ps[0].since
    else FirstEvolved(since, ps[1..], params[1..])
  }

  predicate KnownCustom(attrs: map<nat, AttrSchema>, a: Attr) {
    a.Custom? && a.tag in attrs && |a.params| == |attrs[a.tag].params|
  }

  function AttrScore(attrs: map<nat, AttrSchema>, kind: Kind, a: Attr): (v: Version)
    ensures v.AtLeast(MIN)
  {
    if kind.KCase? && a.Case? && kind.cases.gated && a.value in kind.cases.cases then
      MaxVersion(MaxVersion(MIN, kind.cases.since), kind.cases.cases[a.value])
    else if (kind.KNested? || kind.KSelfContained?) && KnownCustom(attrs, a) then
      var s := attrs[a.tag];
      MaxVersion(MaxVersion(MIN, s.since), FirstEvolved(s.since, s.params, a.params))
    else MIN
  }

  /** No newer parameter that is there is newer than the first one. */
  predicate FirstCovers(since: Version, ps: seq<ParamSchema>, params: seq<Option<Attr>>)
    requires |params| == |ps|
  {
    forall i :: 0 <= i < |ps| && Evolved(since, ps[i], params[i]) ==> FirstEvolved(since, ps, params).AtLeast(ps[i].since)
  }

  lemma {:induction false} NewestIsMax(v: Version, ps: seq<ParamSchema>, params: seq<Option<Attr>>)
    requires |params| == |ps|
    ensures v.AtLeast(NewestPresent(ps, params)) <==>
            forall i :: 0 <= i < |ps| && ps[i].optional && params[i].Some? ==> v.AtLeast(ps[i].since)
  {
    if ps != [] {
      NewestIsMax(v, ps[1..], params[1..]);
      assert ps == [ps[0]] + ps[1..] && params == [params[0]] + params[1..];
    }
  }

  lemma {:induction false} FirstIsOne(since: Version, ps: seq<ParamSchema>, params: seq<Option<Attr>>)
    requires |params| == |ps|
    ensures FirstEvolved(since, ps, params) == LOWEST ||
            exists i :: 0 <= i < |ps| && Evolved(since, ps[i], params[i]) && FirstEvolved(since, ps, params) == ps[i].since
  {
    if ps != [] && !Evolved(since, ps[0], params[0]) {
      FirstIsOne(since, ps[1..], params[1..]);
      assert ps == [ps[0]] + ps[1..] && params == [params[0]] + params[1..];
    }
  }

  /** The first newer parameter stands for all of them exactly if none is newer. */
  lemma {:induction false} FirstIsNewest(since: Version, ps: seq<ParamSchema>, params: seq<Option<Attr>>)
    requires |params| == |ps|
    ensures MaxVersion(since, FirstEvolved(since, ps, params)).AtLeast(NewestPresent(ps, params)) <==> FirstCovers(since, ps, params)
  {
    hide FirstEvolved, NewestPresent;
    NewestIsMax(MaxVersion(since, FirstEvolved(since, ps, params)), ps, params);
    FirstIsOne(since, ps, params);
  }

  lemma {:induction false} FirstOrMin(since: Version, ps: seq<ParamSchema>, params: seq<Option<Attr>>)
    requires |params| == |ps|
    ensures MaxVersion(MaxVersion(MIN, since), FirstEvolved(since, ps, params)).AtLeast(NewestPresent(ps, params)) <==>
            MIN.AtLeast(NewestPresent(ps, params)) || FirstCovers(since, ps, params)
  {
    hide FirstEvolved, NewestPresent, FirstCovers;
    FirstIsNewest(since, ps, params);
  }

  /** The score looks at none of the attributes inside: they are no newer than it. */
  predicate InsideIsOld(attrs: map<nat, AttrSchema>, ps: seq<ParamSchema>, params: seq<Option<Attr>>, score: Version)
    requires |params| == |ps|
  {
    forall i :: 0 <= i < |ps| && params[i].Some? ==> NothingNewer(attrs, ps[i].kind, params[i].value, score)
  }

  predicate ParamsAreOld(ps: seq<ParamSchema>, params: seq<Option<Attr>>)
    requires |params| == |ps|
  {
    forall i :: 0 <= i < |ps| && ps[i].optional && params[i].Some? ==> MIN.AtLeast(ps[i].since)
  }

  /**
    Nothing inside the attribute is newer than its score, at any depth, and the first newer
    parameter covers the others. What is not scored at all has nothing newer than the oldest
    version inside.
    */
  predicate AttrCovered(attrs: map<nat, AttrSchema>, kind: Kind, a: Attr) {
    if kind.KCase? then true
    else if (kind.KNested? || kind.KSelfContained?) && KnownCustom(attrs, a) then
      var s := attrs[a.tag];
      && InsideIsOld(attrs, s.params, a.params, AttrScore(attrs, kind, a))
      && (ParamsAreOld(s.params, a.params) || FirstCovers(s.since, s.params, a.params))
    else NothingNewer(attrs, kind, a, MIN)
  }

  lemma {:induction false} InsideLowest(attrs: map<nat, AttrSchema>, ps: seq<ParamSchema>, params: seq<Option<Attr>>, v: Version)
    requires |params| == |ps|
    ensures v.AtLeast(NeedsParams(attrs, ps, params)) <==> InsideIsOld(attrs, ps, params, v)
  {
    hide Needs, NothingNewer;
    if ps != [] {
      InsideLowest(attrs, ps[1..], params[1..], v);
      if params[0].Some? {
        NeedsIsLowest(attrs, ps[0].kind, params[0].value, v);
      }
      AtLeastMax(v, NeedsParam(attrs, ps[0].kind, params[0]), NeedsParams(attrs, ps[1..], params[1..]));
      assert ps == [ps[0]] + ps[1..] && params == [params[0]] + params[1..];
    }
  }

  /** The score of an attribute is enough to write it, exactly for attributes that are covered. */
  lemma {:induction false} AttrScoreCovers(attrs: map<nat, AttrSchema>, kind: Kind, a: Attr)
    ensures AttrScore(attrs, kind, a).AtLeast(Needs(attrs, kind, a)) <==> AttrCovered(attrs, kind, a)
  {
    hide NeedsParams, NewestPresent, FirstEvolved, FirstCovers, InsideIsOld, ParamsAreOld, NothingNewer;
    if (kind.KNested? || kind.KSelfContained?) && KnownCustom(attrs, a) {
      CustomScoreCovers(attrs, kind, a);
    } else {
      NeedsIsLowest(attrs, kind, a, MIN);
    }
  }

  lemma {:induction false} CustomScoreCovers(attrs: map<nat, AttrSchema>, kind: Kind, a: Attr)
    requires (kind.KNested? || kind.KSelfContained?) && KnownCustom(attrs, a)
    ensures AttrScore(attrs, kind, a).AtLeast(Needs(attrs, kind, a)) <==> AttrCovered(attrs, kind, a)
  {
    hide NeedsParams, NewestPresent, FirstEvolved, FirstCovers, InsideIsOld, ParamsAreOld;
    var s, score := attrs[a.tag], AttrScore(attrs, kind, a);
    FirstOrMin(s.since, s.params, a.params);
    assert MIN.AtLeast(NewestPresent(s.params, a.params)) <==> ParamsAreOld(s.params, a.params) by {
      OldParams(s.params, a.params);
    }
    InsideLowest(attrs, s.params, a.params, score);
    assert Needs(attrs, kind, a) == NeedsData(attrs, a.tag, a.params);
    AtLeastMax(score, MaxVersion(s.since, NewestPresent(s.params, a.params)), NeedsParams(attrs, s.params, a.params));
    AtLeastMax(score, s.since, NewestPresent(s.params, a.params));
  }

  lemma {:induction false} OldParams(ps: seq<ParamSchema>, params: seq<Option<Attr>>)
    requires |params| == |ps|
    ensures MIN.AtLeast(NewestPresent(ps, params)) <==> ParamsAreOld(ps, params)
  {
    NewestIsMax(MIN, ps, params);
  }

  /** With two it may not be: here the second one is newer, and the writer refuses the score. */
  lemma {:induction false} TwoEvolvedAreNotCovered()
    ensures var ps := [ParamSchema(KNum, true, Version(13, 2, 0), None), ParamSchema(KNum, true, Version(13, 3, 0), None)];
            var attrs := map[20 := AttrSchema(Version(13, 1, 0), false, ps)];
            var a := Custom(20, [Some(Num(1)), Some(Num(2))]);
            && InsideIsOld(attrs, ps, a.params, MIN)
            && AttrScore(attrs, KNested(20), a) == Version(13, 2, 0)
            && Needs(attrs, KNested(20), a) == Version(13, 3, 0)
  {
    var ps := [ParamSchema(KNum, true, Version(13, 2, 0), None), ParamSchema(KNum, true, Version(13, 3, 0), None)];
    var params: seq<Option<Attr>> := [Some(Num(1)), Some(Num(2))];
    var attrs := map[20 := AttrSchema(Version(13, 1, 0), false, ps)];
    assert ps[1..] == [ps[1]] && ps[1..][1..] == [] && params[1..] == [params[1]] && params[1..][1..] == [];
    assert NeedsParams(attrs, ps, params) == LOWEST && NewestPresent(ps, params) == Version(13, 3, 0);
    assert FirstEvolved(Version(13, 1, 0), ps, params) == Version(13, 2, 0);
    assert NeedsData(attrs, 20, params) == Version(13, 3, 0);
  }

  // ---------------------------------------------------------------- scores of types

  function TypeScore(t: TypeEnv, ty: Type): (v: Version)
    ensures v.AtLeast(MIN)
    decreases ty, 1
  {
    match ty
    case Builtin(tag) => if tag in t.builtins then MaxVersion(MIN, t.builtins[tag]) else MIN
    case Func(ins, outs) => MaxVersion(TypesScore(t, ins), TypesScore(t, outs))
    case Parametric(tag, args) =>
      if tag in t.parametric && |args| == |t.parametric[tag].params| then
        MaxVersion(t.parametric[tag].since, ArgsScore(t, t.parametric[tag].params, args))
      else MIN
  }

  function TypesScore(t: TypeEnv, types: seq<Type>): (v: Version)
    ensures v.AtLeast(MIN)
    decreases types, 0
  {
    if types == [] then MIN else MaxVersion(TypeScore(t, types[0]), TypesScore(t, types[1..]))
  }

  function ArgsScore(t: TypeEnv, ps: seq<ParamSchema>, args: seq<Option<Attr>>): (v: Version)
    requires |args| == |ps|
    ensures v.AtLeast(MIN)
    decreases args, 0
  {
    if ps == [] then MIN else MaxVersion(ArgScore(t, ps[0].kind, args[0]), ArgsScore(t, ps[1..], args[1..]))
  }

  /** Types are scored recursively, attributes by their own score, all else not at all. */
  function ArgScore(t: TypeEnv, kind: Kind, arg: Option<Attr>): (v: Version)
    ensures v.AtLeast(MIN)
    decreases arg, 0
  {
    match arg
    case None => MIN
    case Some(a) =>
      if (kind.KType? || kind.KClass?) && a.TypeRef? then TypeScore(t, a.ty)
      else if kind.KArray? && a.Array? then ElemsScore(t.env.attrs, a.elems)
      else AttrScore(t.env.attrs, kind, a)
  }

  function ElemsScore(attrs: map<nat, AttrSchema>, elems: seq<Attr>): (v: Version)
    ensures v.AtLeast(MIN)
  {
    if elems == [] then MIN else MaxVersion(AttrScore(attrs, KSelfContained, elems[0]), ElemsScore(attrs, elems[1..]))
  }

  // ---------------------------------------------------------------- which versions take a type

  predicate ArgFits(attrs: map<nat, AttrSchema>, s: TypeSchema, p: ParamSchema, arg: Option<Attr>, v: Version) {
    if p.since != s.since && v.Before(p.since) then arg == if p.optional then None else p.fallback
    else arg.Some? ==> v.AtLeast(Needs(attrs, p.kind, arg.value))
  }

  predicate ArgsFit(attrs: map<nat, AttrSchema>, s: TypeSchema, ps: seq<ParamSchema>, args: seq<Option<Attr>>, v: Version)
    requires |args| == |ps|
  {
    forall i :: 0 <= i < |ps| ==> ArgFits(attrs, s, ps[i], args[i], v)
  }

  predicate TypeFits(t: TypeEnv, ty: Type, v: Version) {
    match ty
    case Builtin(tag) => tag in t.builtins && v.AtLeast(t.builtins[tag])
    case Func(_, _) => true
    case Parametric(tag, args) =>
      && tag in t.parametric && |args| == |t.parametric[tag].params| && v.AtLeast(t.parametric[tag].since)
      && ArgsFit(t.env.attrs, t.parametric[tag], t.parametric[tag].params, args, v)
  }

  /** A version that has every parameter of a type, in the newer format. */
  predicate TypeComplete(t: TypeEnv, ty: Type, w: Version) {
    ty.Parametric? && ty.tag in t.parametric ==>
      var s := t.parametric[ty.tag];
      Unified(w) && w.AtLeast(s.flagsSince) && forall i :: 0 <= i < |s.params| ==> w.AtLeast(s.params[i].since)
  }

  function TypesAt(t: TypeEnv, v: Version): TypeEnv {
    t.(env := At(t.env, v))
  }

  lemma {:induction false} ArgThreshold(env: Env, w: Version, v: Version, s: TypeSchema, p: ParamSchema, arg: Option<Attr>)
    requires w.AtLeast(p.since) && Unified(w) && WriteArg(At(env, w), s, p, arg).Some?
    ensures WriteArg(At(env, v), s, p, arg).Some? <==> ArgFits(env.attrs, s, p, arg, v)
  {
    hide Write, Needs;
    if arg.Some? {
      AttrThreshold(env, w, v, p.kind, arg.value);
    }
  }

  lemma {:induction false} ArgsThreshold(env: Env, w: Version, v: Version, s: TypeSchema, ps: seq<ParamSchema>,
                                         args: seq<Option<Attr>>)
    requires |args| == |ps| && Unified(w) && (forall i :: 0 <= i < |ps| ==> w.AtLeast(ps[i].since))
    requires WriteArgs(At(env, w), s, ps, args).Some?
    ensures WriteArgs(At(env, v), s, ps, args).Some? <==> ArgsFit(env.attrs, s, ps, args, v)
    decreases |ps|
  {
    hide WriteArg, ArgFits;
    if ps != [] {
      ArgThreshold(env, w, v, s, ps[0], args[0]);
      ArgsThreshold(env, w, v, s, ps[1..], args[1..]);
      assert ps == [ps[0]] + ps[1..] && args == [args[0]] + args[1..];
    }
  }

  lemma {:induction false} OrderIsNoMatter(attrs: map<nat, AttrSchema>, s: TypeSchema, args: seq<Option<Attr>>, v: Version)
    requires |args| == |s.params|
    ensures ArgsFit(attrs, s, Ordered(s, s.params), Ordered(s, args), v) <==> ArgsFit(attrs, s, s.params, args, v)
  {
    hide ArgFits;
    if s.reversed {
      var n := |args|;
      forall i | 0 <= i < n ensures Reverse(s.params)[n - 1 - i] == s.params[i] && Reverse(args)[n - 1 - i] == args[i] {
      }
      if ArgsFit(attrs, s, Reverse(s.params), Reverse(args), v) {
        forall i | 0 <= i < n ensures ArgFits(attrs, s, s.params[i], args[i], v) {
          assert ArgFits(attrs, s, Reverse(s.params)[n - 1 - i], Reverse(args)[n - 1 - i], v);
        }
      }
    }
  }

  /** A type that some complete version can write is taken by exactly the versions it fits. */
  lemma {:induction false} TypeThreshold(t: TypeEnv, w: Version, v: Version, ty: Type)
    requires TypeComplete(t, ty, w) && WriteType(TypesAt(t, w), ty).Some?
    ensures WriteType(TypesAt(t, v), ty).Some? <==> TypeFits(t, ty, v)
  {
    hide WriteArgs, PresenceWord, ArgsFit, Ordered, WriteTypes;
    match ty
    case Builtin(tag) =>
    case Func(ins, outs) =>
      TypesAnyVersion(t.env, w, ins);
      TypesAnyVersion(t.env, w, outs);
      TypesAnyVersion(t.env, v, ins);
      TypesAnyVersion(t.env, v, outs);
    case Parametric(tag, args) =>
      var s := t.parametric[tag];
      SinceOfOrdered(s, w);
      ArgsThreshold(t.env, w, v, s, Ordered(s, s.params), Ordered(s, args));
      OrderIsNoMatter(t.env.attrs, s, args, v);
      assert WritesFlags(s, v) ==> WritesFlags(s, w);
  }

  lemma {:induction false} SinceOfOrdered(s: TypeSchema, w: Version)
    requires forall i :: 0 <= i < |s.params| ==> w.AtLeast(s.params[i].since)
    ensures forall i :: 0 <= i < |s.params| ==> w.AtLeast(Ordered(s, s.params)[i].since)
  {
  }

  // ---------------------------------------------------------------- the score of a type is enough

  /** The attribute in a parameter is scored high enough. */
  predicate ArgScored(t: TypeEnv, kind: Kind, arg: Option<Attr>) {
    arg.Some? ==>
      if kind.KArray? && arg.value.Array? then
        forall i :: 0 <= i < |arg.value.elems| ==> AttrCovered(t.env.attrs, KSelfContained, arg.value.elems[i])
      else AttrCovered(t.env.attrs, kind, arg.value)
  }

  predicate PartsScored(t: TypeEnv, ty: Type) {
    ty.Parametric? && ty.tag in t.parametric && |ty.args| == |t.parametric[ty.tag].params| ==>
      forall i :: 0 <= i < |ty.args| ==> ArgScored(t, t.parametric[ty.tag].params[i].kind, ty.args[i])
  }

  /** The value a parameter has in versions that do not have it. */
  function SkippedArg(p: ParamSchema): Option<Attr> {
    if p.optional then None else p.fallback
  }

  /** A parameter that is there is no newer than the type itself, or than some argument scores. */
  predicate ParamCovered(t: TypeEnv, s: TypeSchema, args: seq<Option<Attr>>, i: nat)
    requires |args| == |s.params| && i < |args|
  {
    || args[i] == SkippedArg(s.params[i])
    || s.since.AtLeast(s.params[i].since)
    || exists j :: 0 <= j < |args| && ArgScore(t, s.params[j].kind, args[j]).AtLeast(s.params[i].since)
  }

  /** The type is known, and every newer parameter that is there is covered by something that is scored. */
  predicate TypeCovered(t: TypeEnv, ty: Type) {
    match ty
    case Builtin(tag) => tag in t.builtins
    case Func(_, _) => true
    case Parametric(tag, args) =>
      && tag in t.parametric && |args| == |t.parametric[tag].params|
      && forall i :: 0 <= i < |args| ==> ParamCovered(t, t.parametric[tag], args, i)
  }

  lemma {:induction false} ElemsScoreCovers(attrs: map<nat, AttrSchema>, elems: seq<Attr>)
    requires forall i :: 0 <= i < |elems| ==> AttrCovered(attrs, KSelfContained, elems[i])
    ensures ElemsScore(attrs, elems).AtLeast(NeedsElems(attrs, elems))
  {
    hide AttrCovered, AttrScore, NeedsTagged;
    if elems != [] {
      AttrScoreCovers(attrs, KSelfContained, elems[0]);
      ElemsScoreCovers(attrs, elems[1..]);
      assert Needs(attrs, KSelfContained, elems[0]) == NeedsTagged(attrs, elems[0]);
    }
  }

  lemma {:induction false} ArgScoreCovers(t: TypeEnv, kind: Kind, arg: Option<Attr>)
    requires arg.Some? && ArgScored(t, kind, arg)
    ensures ArgScore(t, kind, arg).AtLeast(Needs(t.env.attrs, kind, arg.value))
  {
    hide AttrScore, AttrCovered;
    if kind.KArray? && arg.value.Array? {
      ElemsScoreCovers(t.env.attrs, arg.value.elems);
    } else {
      AttrScoreCovers(t.env.attrs, kind, arg.value);
    }
  }

  lemma {:induction false} ArgsScoreIsMax(t: TypeEnv, ps: seq<ParamSchema>, args: seq<Option<Attr>>, i: nat)
    requires |args| == |ps| && i < |ps|
    ensures ArgsScore(t, ps, args).AtLeast(ArgScore(t, ps[i].kind, args[i]))
    decreases |ps|
  {
    hide ArgScore;
    if i > 0 {
      ArgsScoreIsMax(t, ps[1..], args[1..], i - 1);
    }
  }

  lemma {:induction false} ArgsScoreIsOne(t: TypeEnv, ps: seq<ParamSchema>, args: seq<Option<Attr>>)
    requires |args| == |ps| > 0
    ensures exists j :: 0 <= j < |ps| && ArgScore(t, ps[j].kind, args[j]) == ArgsScore(t, ps, args)
    decreases |ps|
  {
    hide ArgScore;
    if ArgScore(t, ps[0].kind, args[0]).Before(ArgsScore(t, ps[1..], args[1..])) {
      if |ps| > 1 {
        ArgsScoreIsOne(t, ps[1..], args[1..]);
        assert ps == [ps[0]] + ps[1..] && args == [args[0]] + args[1..];
      }
    }
  }

  lemma {:induction false} ParamCoveredIff(t: TypeEnv, s: TypeSchema, args: seq<Option<Attr>>, i: nat)
    requires |args| == |s.params| && i < |args|
    ensures ParamCovered(t, s, args, i) <==>
            args[i] == SkippedArg(s.params[i]) || MaxVersion(s.since, ArgsScore(t, s.params, args)).AtLeast(s.params[i].since)
  {
    hide ArgScore, ArgsScore, SkippedArg;
    ArgsScoreIsOne(t, s.params, args);
    forall j | 0 <= j < |args| ensures ArgsScore(t, s.params, args).AtLeast(ArgScore(t, s.params[j].kind, args[j])) {
      ArgsScoreIsMax(t, s.params, args, j);
    }
  }

  lemma {:induction false} ArgFitsFrom(t: TypeEnv, s: TypeSchema, args: seq<Option<Attr>>, i: nat, v: Version)
    requires |args| == |s.params| && i < |args| && ArgScored(t, s.params[i].kind, args[i])
    requires v.AtLeast(MaxVersion(s.since, ArgsScore(t, s.params, args)))
    ensures ParamCovered(t, s, args, i) ==> ArgFits(t.env.attrs, s, s.params[i], args[i], v)
    ensures v == MaxVersion(s.since, ArgsScore(t, s.params, args)) && ArgFits(t.env.attrs, s, s.params[i], args[i], v) ==>
              ParamCovered(t, s, args, i)
  {
    hide ArgScored, ArgScore, Needs, ArgsScore, ParamCovered;
    ParamCoveredIff(t, s, args, i);
    ArgsScoreIsMax(t, s.params, args, i);
    if args[i].Some? {
      ArgScoreCovers(t, s.params[i].kind, args[i]);
    }
  }

  /** The score of a type is enough to write it, there and from there on, exactly for types that are covered. */
  lemma {:induction false} TypeScoreCovers(t: TypeEnv, ty: Type)
    requires PartsScored(t, ty)
    ensures TypeFits(t, ty, TypeScore(t, ty)) <==> TypeCovered(t, ty)
    ensures TypeCovered(t, ty) ==> forall v: Version :: v.AtLeast(TypeScore(t, ty)) ==> TypeFits(t, ty, v)
  {
    hide ArgScored, ArgScore, Needs, ArgsScore, ParamCovered, ArgFits;
    if ty.Parametric? && ty.tag in t.parametric && |ty.args| == |t.parametric[ty.tag].params| {
      var s := t.parametric[ty.tag];
      forall i, v: Version | 0 <= i < |ty.args| && v.AtLeast(TypeScore(t, ty))
        ensures ParamCovered(t, s, ty.args, i) ==> ArgFits(t.env.attrs, s, s.params[i], ty.args[i], v)
        ensures v == TypeScore(t, ty) && ArgFits(t.env.attrs, s, s.params[i], ty.args[i], v) ==> ParamCovered(t, s, ty.args, i)
      {
        ArgFitsFrom(t, s, ty.args, i, v);
      }
    }
  }

  /** A dialect type of 13.1 with an optional type parameter of 13.4. */
  function WithLateParam(): TypeEnv {
    TypeEnv(Env(MIN, [], [Some(I1)], [], map[]), map[0 := MIN],
            map[20 := TypeSchema(MIN, false, [ParamSchema(KType, true, V13_4, None)], V13_4)])
  }

  /**
    The condition is needed: the parameter's own version is not scored, so the type scores
    13.1, and is refused there.
    */
  lemma {:induction false} LateParamIsNotCovered()
    ensures var t, ty := WithLateParam(), Parametric(20, [Some(TypeRef(I1))]);
            && PartsScored(t, ty) && !TypeCovered(t, ty) && TypeScore(t, ty) == MIN
            && WriteType(t, ty) == None && WriteType(TypesAt(t, V13_4), ty).Some?
  {
    var t, ty := WithLateParam(), Parametric(20, [Some(TypeRef(I1))]);
    var s := t.parametric[20];
    assert TypeScore(t, I1) == MIN;
    assert s.params[1..] == [] && ty.args[1..] == [] && ArgsScore(t, [], []) == MIN;
    assert ArgsScore(t, s.params, ty.args) == MIN;
    ParamCoveredIff(t, s, ty.args, 0);
    LateParamIsWritten();
  }

  lemma {:induction false} LateParamIsWritten()
    ensures WriteType(WithLateParam(), Parametric(20, [Some(TypeRef(I1))])) == None
    ensures WriteType(TypesAt(WithLateParam(), V13_4), Parametric(20, [Some(TypeRef(I1))])).Some?
  {
    var t := WithLateParam();
    var s, args := t.parametric[20], [Some(TypeRef(I1))];
    assert WriteArg(t.env, s, s.params[0], args[0]) == None;
    assert s.params[1..] == [] && args[1..] == [] && WriteArgs(At(t.env, V13_4), s, [], []) == Some([]);
    assert Write(At(t.env, V13_4), KType, TypeRef(I1)).Some?;
    assert WriteArg(At(t.env, V13_4), s, s.params[0], args[0]).Some?;
    assert WriteArgs(At(t.env, V13_4), s, s.params, args).Some?;
    assert PresenceWord(s.params, args) <= 1;
  }

  /** What a type is made of is scored with it. */
  lemma {:induction false} PartsAreScored(t: TypeEnv, ty: Type, part: Type, i: nat)
    requires match ty
             case Builtin(_) => false
             case Func(ins, outs) => (i < |ins| && ins[i] == part) || (i < |outs| && outs[i] == part)
             case Parametric(tag, args) =>
               && tag in t.parametric && |args| == |t.parametric[tag].params| && i < |args| && args[i] == Some(TypeRef(part))
               && (t.parametric[tag].params[i].kind.KType? || t.parametric[tag].params[i].kind.KClass?)
    ensures TypeScore(t, ty).AtLeast(TypeScore(t, part))
  {
    hide ArgsScore, TypesScore;
    match ty
    case Func(ins, outs) =>
      if i < |ins| && ins[i] == part {
        TypesScoreIsMax(t, ins, i);
      } else {
        TypesScoreIsMax(t, outs, i);
      }
    case Parametric(tag, args) => ArgsScoreIsMax(t, t.parametric[tag].params, args, i);
  }

  lemma {:induction false} TypesScoreIsMax(t: TypeEnv, types: seq<Type>, i: nat)
    requires i < |types|
    ensures TypesScore(t, types).AtLeast(TypeScore(t, types[i]))
  {
    hide TypeScore;
    if i > 0 {
      TypesScoreIsMax(t, types[1..], i - 1);
    }
  }

  // ---------------------------------------------------------------- scores of operations

  /** One contribution to the maximum: a version, or a type that is scored once. */
  datatype Scored = Fixed(v: Version) | OfType(ty: Type)

  /** `operandTypes` has one group for every operand of the schema. */
  datatype OpInfo = OpInfo(s: OpSchema, h: Head, operandTypes: seq<seq<Type>>, used: seq<bool>, blockArgs: seq<Type>)

  function OfTypes(types: seq<Type>): seq<Scored> {
    if types == [] then [] else [OfType(types[0])] + OfTypes(types[1..])
  }

  function FixedIf(c: bool, v: Version): seq<Scored> {
    if c then [Fixed(v)] else []
  }

  function OperandItems(since: Version, os: seq<OperandSchema>, groups: seq<seq<Type>>): seq<Scored>
    requires |groups| == |os|
  {
    if os == [] then []
    else FixedIf(since.Before(os[0].since) && (os[0].arity.One? || groups[0] != []), os[0].since) + OfTypes(groups[0]) +
         OperandItems(since, os[1..], groups[1..])
  }

  /** A newer result counts only if it is used; a variadic one only if it is not empty. */
  function ResultItems(since: Version, rs: seq<ResultSchema>, many: bool, types: seq<Type>, used: seq<bool>): seq<Scored>
    requires |used| == |types|
    decreases |rs|
  {
    if rs == [] then []
    else if many && |rs| == 1 then FixedIf(since.Before(rs[0].since) && types != [], rs[0].since) + OfTypes(types)
    else if types == [] then []
    else (if since.Before(rs[0].since) then (if used[0] then [Fixed(rs[0].since), OfType(types[0])] else [])
          else [OfType(types[0])]) + ResultItems(since, rs[1..], many, types[1..], used[1..])
  }

  function AttrItems(attrs: map<nat, AttrSchema>, since: Version, fs: seq<FieldSchema>,
                     values: seq<Option<Attr>>): seq<Scored>
    requires |values| == |fs|
  {
    if fs == [] then []
    else (if values[0].None? then []
          else FixedIf(since.Before(fs[0].since), fs[0].since) +
               (if fs[0].unit then [] else [Fixed(AttrScore(attrs, fs[0].kind, values[0].value))])) +
         AttrItems(attrs, since, fs[1..], values[1..])
  }

  predicate InfoOk(info: OpInfo) {
    && Shaped(info.s, info.h) && |info.used| == |info.h.results| && |info.operandTypes| == |info.s.operands|
    && (info.s.segmented ==> forall i :: 0 <= i < |info.operandTypes| ==> |info.operandTypes[i]| == |info.h.operands[i]|)
  }

  function ItemsOf(attrs: map<nat, AttrSchema>, info: OpInfo): seq<Scored>
    requires InfoOk(info)
  {
    var s := info.s;
    [Fixed(s.since)] + OperandItems(s.since, s.operands, info.operandTypes) +
    ResultItems(s.since, s.results, s.manyResults, info.h.results, info.used) +
    AttrItems(attrs, s.since, s.attrs, info.h.attrs) + OfTypes(info.blockArgs)
  }

  // ---------------------------------------------------------------- the walk

  function ItemScore(t: TypeEnv, x: Scored): Version {
    match x
    case Fixed(v) => v
    case OfType(ty) => TypeScore(t, ty)
  }

  /** The maximum over every occurrence. */
  function Highest(t: TypeEnv, items: seq<Scored>): Version {
    if items == [] then MIN
    else MaxVersion(Highest(t, items[..|items| - 1]), ItemScore(t, items[|items| - 1]))
  }

  function Flatten(ops: seq<seq<Scored>>): seq<Scored> {
    if ops == [] then [] else Flatten(ops[..|ops| - 1]) + ops[|ops| - 1]
  }

  /** A type seen before counts as the oldest version; the maximum is the same. */
  method GetMinBytecodeVersion(t: TypeEnv, ops: seq<seq<Scored>>) returns (maxVersion: Version)
    ensures maxVersion == Highest(t, Flatten(ops))
  {
    hide TypeScore, Highest, Flatten;
    NothingScored(t);
    maxVersion := MIN;
    var processed: set<Type> := {};
    for i := 0 to |ops|
      invariant maxVersion == Highest(t, Flatten(ops[..i]))
      invariant forall ty :: ty in processed ==> maxVersion.AtLeast(TypeScore(t, ty))
    {
      var opVersion := MIN;
      ghost var before := Flatten(ops[..i]);
      assert before + ops[i][..0] == before;
      HighestAtLeastMin(t, before);
      for j := 0 to |ops[i]|
        invariant MaxVersion(maxVersion, opVersion) == Highest(t, before + ops[i][..j])
        invariant forall ty :: ty in processed ==> MaxVersion(maxVersion, opVersion).AtLeast(TypeScore(t, ty))
      {
        var score := MIN;
        match ops[i][j] {
          case Fixed(v) => score := v;
          case OfType(ty) =>
            if ty !in processed {
              score := TypeScore(t, ty);
              processed := processed + {ty};
            }
        }
        HighestStep(t, before, ops[i], j);
        opVersion := MaxVersion(opVersion, score);
      }
      maxVersion := MaxVersion(maxVersion, opVersion);
      assert ops[i][..|ops[i]|] == ops[i];
      FlattenStep(ops, i);
    }
    assert ops[..|ops|] == ops;
  }

  lemma {:induction false} NothingScored(t: TypeEnv)
    ensures Flatten([]) == [] && Highest(t, []) == MIN
  {
  }

  lemma {:induction false} FlattenStep(ops: seq<seq<Scored>>, i: nat)
    requires i < |ops|
    ensures Flatten(ops[..i + 1]) == Flatten(ops[..i]) + ops[i]
  {
    assert ops[..i + 1][..i] == ops[..i];
  }

  lemma {:induction false} HighestStep(t: TypeEnv, before: seq<Scored>, items: seq<Scored>, j: nat)
    requires j < |items|
    ensures Highest(t, before + items[..j + 1]) == MaxVersion(Highest(t, before + items[..j]), ItemScore(t, items[j]))
    ensures Highest(t, before + items[..j]).AtLeast(MIN)
  {
    var now := before + items[..j + 1];
    assert now[..|now| - 1] == before + items[..j];
    HighestAtLeastMin(t, before + items[..j]);
  }

  lemma {:induction false} HighestAtLeastMin(t: TypeEnv, items: seq<Scored>)
    ensures Highest(t, items).AtLeast(MIN)
  {
    if items != [] {
      HighestAtLeastMin(t, items[..|items| - 1]);
    }
  }

  lemma {:induction false} HighestIsMax(t: TypeEnv, items: seq<Scored>, x: Scored)
    requires x in items
    ensures Highest(t, items).AtLeast(ItemScore(t, x))
  {
    hide ItemScore;
    var init := items[..|items| - 1];
    if x != items[|items| - 1] {
      assert items == init + [items[|items| - 1]];
      HighestIsMax(t, init, x);
    }
  }

  lemma {:induction false} InFlatten(ops: seq<seq<Scored>>, i: nat, x: Scored)
    requires i < |ops| && x in ops[i]
    ensures x in Flatten(ops)
  {
    if i < |ops| - 1 {
      InFlatten(ops[..|ops| - 1], i, x);
    }
  }

  // ---------------------------------------------------------------- the writer accepts the score

  lemma {:induction false} OperandItem(since: Version, os: seq<OperandSchema>, groups: seq<seq<Type>>, i: nat)
    requires |groups| == |os| && i < |os| && groups[i] != [] && since.Before(os[i].since)
    ensures Fixed(os[i].since) in OperandItems(since, os, groups)
  {
    hide OfTypes;
    if i > 0 {
      OperandItem(since, os[1..], groups[1..], i - 1);
    }
  }

  lemma {:induction false} ResultItem(since: Version, rs: seq<ResultSchema>, many: bool, types: seq<Type>,
                                      used: seq<bool>, i: nat)
    requires |used| == |types| == |rs| && i < |rs| && used[i] && since.Before(rs[i].since)
    ensures Fixed(rs[i].since) in ResultItems(since, rs, many, types, used)
    decreases |rs|
  {
    hide OfTypes;
    if i > 0 {
      ResultItem(since, rs[1..], many, types[1..], used[1..], i - 1);
    }
  }

  lemma {:induction false} AttrItem(attrs: map<nat, AttrSchema>, since: Version, fs: seq<FieldSchema>,
                                    values: seq<Option<Attr>>, i: nat)
    requires |values| == |fs| && i < |fs| && values[i].Some?
    ensures since.Before(fs[i].since) ==> Fixed(fs[i].since) in AttrItems(attrs, since, fs, values)
    ensures !fs[i].unit ==> Fixed(AttrScore(attrs, fs[i].kind, values[i].value)) in AttrItems(attrs, since, fs, values)
    decreases |fs|
  {
    hide AttrScore;
    if i > 0 {
      AttrItem(attrs, since, fs[1..], values[1..], i - 1);
    }
  }

  lemma {:induction false} AttrsReach(s: OpSchema, v: Version, fs: seq<FieldSchema>, values: seq<Option<Attr>>)
    requires |values| == |fs| && forall i :: 0 <= i < |fs| && values[i].Some? ==> s.Reaches(fs[i].since, v)
    ensures forall i :: 0 <= i < |AttrVersions(fs)| && AttrPresence(fs, values)[i] ==> s.Reaches(AttrVersions(fs)[i], v)
    decreases |fs|
  {
    if fs != [] {
      AttrsReach(s, v, fs[1..], values[1..]);
    }
  }

  lemma {:induction false} OperandsReach(s: OpSchema, v: Version, os: seq<OperandSchema>, groups: seq<seq<nat>>)
    requires |groups| == |os| && forall i :: 0 <= i < |os| && groups[i] != [] ==> s.Reaches(os[i].since, v)
    ensures forall i :: 0 <= i < |OperandVersions(os)| && OperandPresence(os, groups)[i] ==> s.Reaches(OperandVersions(os)[i], v)
    decreases |os|
  {
    if os != [] {
      OperandsReach(s, v, os[1..], groups[1..]);
    }
  }

  predicate AllAtLeast(t: TypeEnv, v: Version, items: seq<Scored>) {
    forall x :: x in items ==> v.AtLeast(ItemScore(t, x))
  }

  /** The attributes of an operation are scored high enough. */
  predicate AttrsScored(attrs: map<nat, AttrSchema>, info: OpInfo)
    requires InfoOk(info)
  {
    forall i :: 0 <= i < |info.s.attrs| && info.h.attrs[i].Some? && !info.s.attrs[i].unit ==>
      AttrCovered(attrs, info.s.attrs[i].kind, info.h.attrs[i].value)
  }

  lemma {:induction false} ItemsSplit(attrs: map<nat, AttrSchema>, info: OpInfo, t: TypeEnv, v: Version)
    requires InfoOk(info) && AllAtLeast(t, v, ItemsOf(attrs, info))
    ensures v.AtLeast(info.s.since)
    ensures AllAtLeast(t, v, OperandItems(info.s.since, info.s.operands, info.operandTypes))
    ensures AllAtLeast(t, v, ResultItems(info.s.since, info.s.results, info.s.manyResults, info.h.results, info.used))
    ensures AllAtLeast(t, v, AttrItems(attrs, info.s.since, info.s.attrs, info.h.attrs))
  {
    hide OperandItems, ResultItems, AttrItems, OfTypes, InfoOk;
    assert Fixed(info.s.since) in ItemsOf(attrs, info);
    assert v.AtLeast(ItemScore(t, Fixed(info.s.since)));
  }

  lemma {:induction false} FieldsReach(t: TypeEnv, attrs: map<nat, AttrSchema>, info: OpInfo, v: Version)
    requires InfoOk(info) && v.AtLeast(info.s.since)
    requires AllAtLeast(t, v, OperandItems(info.s.since, info.s.operands, info.operandTypes))
    requires AllAtLeast(t, v, AttrItems(attrs, info.s.since, info.s.attrs, info.h.attrs))
    ensures FieldsAllowed(info.s, v, Presence(info.s, info.h))
  {
    hide OperandItems, AttrItems, AttrVersions, AttrPresence, OperandVersions, OperandPresence, AttrScore;
    var s, h := info.s, info.h;
    forall i | 0 <= i < |s.attrs| && h.attrs[i].Some? ensures s.Reaches(s.attrs[i].since, v) {
      AttrItem(attrs, s.since, s.attrs, h.attrs, i);
      ReachesIf(t, v, s, s.attrs[i].since, AttrItems(attrs, s.since, s.attrs, h.attrs));
    }
    AttrsReach(s, v, s.attrs, h.attrs);
    if s.segmented {
      forall i | 0 <= i < |s.operands| && h.operands[i] != [] ensures s.Reaches(s.operands[i].since, v) {
        if s.since.Before(s.operands[i].since) {
          OperandItem(s.since, s.operands, info.operandTypes, i);
        }
        ReachesIf(t, v, s, s.operands[i].since, OperandItems(s.since, s.operands, info.operandTypes));
      }
      OperandsReach(s, v, s.operands, h.operands);
    }
  }

  lemma {:induction false} ReachesIf(t: TypeEnv, v: Version, s: OpSchema, since: Version, items: seq<Scored>)
    requires v.AtLeast(s.since) && AllAtLeast(t, v, items) && (s.since.Before(since) ==> Fixed(since) in items)
    ensures v.AtLeast(since)
  {
    if s.since.Before(since) {
      assert v.AtLeast(ItemScore(t, Fixed(since)));
    }
  }

  /** A version no lower than every contribution is one the writer accepts the operation at. */
  lemma {:induction false} ScoredIsAccepted(t: TypeEnv, attrs: map<nat, AttrSchema>, info: OpInfo, v: Version)
    requires InfoOk(info) && AttrsScored(attrs, info) && AllAtLeast(t, v, ItemsOf(attrs, info))
    requires info.s.HasVersionedResults() ==> |info.h.results| == |info.s.results|
    ensures Accepts(attrs, info.s, info.h, info.used, v)
  {
    hide OperandItems, ResultItems, AttrItems, Needs, AttrScore, FieldsAllowed, AttrCovered, Presence;
    var s, h := info.s, info.h;
    ItemsSplit(attrs, info, t, v);
    FieldsReach(t, attrs, info, v);
    if s.HasVersionedResults() {
      forall i | 0 <= i < |s.results| && info.used[i] ensures Compatible(s, v, s.results[i]) {
        if s.since.Before(s.results[i].since) {
          ResultItem(s.since, s.results, s.manyResults, h.results, info.used, i);
        }
        ReachesIf(t, v, s, s.results[i].since, ResultItems(s.since, s.results, s.manyResults, h.results, info.used));
      }
    }
    forall i | 0 <= i < |s.attrs| ensures FieldFits(attrs, s.attrs[i], h.attrs[i], v) {
      if h.attrs[i].Some? && !s.attrs[i].unit {
        var items, score := AttrItems(attrs, s.since, s.attrs, h.attrs), AttrScore(attrs, s.attrs[i].kind, h.attrs[i].value);
        AttrItem(attrs, s.since, s.attrs, h.attrs, i);
        ReachesIf(t, v, s, s.attrs[i].since, items);
        assert v.AtLeast(ItemScore(t, Fixed(score)));
        AttrScoreCovers(attrs, s.attrs[i].kind, h.attrs[i].value);
      }
    }
  }

  /**
    The writer accepts every operation at the version the analyzer returns and at every
    later one, and takes there every type the walk met, exactly the covered ones at its score.
    */
  lemma {:induction false} MinVersionSuffices(t: TypeEnv, ops: seq<OpInfo>, items: seq<seq<Scored>>, i: nat, v: Version)
    requires |items| == |ops| && i < |ops| && InfoOk(ops[i]) && items[i] == ItemsOf(t.env.attrs, ops[i])
    requires v.AtLeast(Highest(t, Flatten(items)))
    ensures AttrsScored(t.env.attrs, ops[i]) && (ops[i].s.HasVersionedResults() ==> |ops[i].h.results| == |ops[i].s.results|) ==>
              Accepts(t.env.attrs, ops[i].s, ops[i].h, ops[i].used, v)
    ensures forall ty :: OfType(ty) in items[i] && PartsScored(t, ty) && TypeCovered(t, ty) ==> TypeFits(t, ty, v)
  {
    hide Accepts, ItemsOf, PartsScored, TypeCovered, TypeFits, TypeScore, AttrsScored, InfoOk, Flatten;
    forall x | x in items[i] ensures v.AtLeast(ItemScore(t, x)) {
      InFlatten(items, i, x);
      HighestIsMax(t, Flatten(items), x);
    }
    if AttrsScored(t.env.attrs, ops[i]) && (ops[i].s.HasVersionedResults() ==> |ops[i].h.results| == |ops[i].s.results|) {
      ScoredIsAccepted(t, t.env.attrs, ops[i], v);
    }
    forall ty | OfType(ty) in items[i] && PartsScored(t, ty) && TypeCovered(t, ty) ensures TypeFits(t, ty, v) {
      assert v.AtLeast(ItemScore(t, OfType(ty)));
      TypeScoreCovers(t, ty);
    }
  }

  /** Some version that has every field writes the operation. */
  ghost predicate WritableOp(env: Env, info: OpInfo)
    requires InfoOk(info)
  {
    exists w :: Complete(info.s, w) && WriteHead(At(env, w), info.s, info.h, info.used).Some?
  }

  /** Some version that has every parameter writes the type. */
  ghost predicate WritableType(t: TypeEnv, ty: Type) {
    exists w :: TypeComplete(t, ty, w) && WriteType(TypesAt(t, w), ty).Some?
  }

  /** The type itself, or one it is made of, at any depth. */
  predicate PartOf(t: TypeEnv, ty: Type, part: Type)
    decreases ty
  {
    part == ty ||
    match ty
    case Builtin(_) => false
    case Func(ins, outs) =>
      (exists i :: 0 <= i < |ins| && PartOf(t, ins[i], part)) || (exists i :: 0 <= i < |outs| && PartOf(t, outs[i], part))
    case Parametric(tag, args) =>
      && tag in t.parametric && |args| == |t.parametric[tag].params|
      && exists i :: 0 <= i < |args| && (t.parametric[tag].params[i].kind.KType? || t.parametric[tag].params[i].kind.KClass?) &&
                     args[i].Some? && args[i].value.TypeRef? && PartOf(t, args[i].value.ty, part)
  }

  lemma {:induction false} DeepPartsAreScored(t: TypeEnv, ty: Type, part: Type)
    requires PartOf(t, ty, part)
    ensures TypeScore(t, ty).AtLeast(TypeScore(t, part))
    decreases ty
  {
    hide TypeScore;
    if part != ty {
      match ty
      case Func(ins, outs) =>
        if i :| 0 <= i < |ins| && PartOf(t, ins[i], part) {
          DeepPartsAreScored(t, ins[i], part);
          PartsAreScored(t, ty, ins[i], i);
        } else {
          var i :| 0 <= i < |outs| && PartOf(t, outs[i], part);
          DeepPartsAreScored(t, outs[i], part);
          PartsAreScored(t, ty, outs[i], i);
        }
      case Parametric(tag, args) =>
        var i :| 0 <= i < |args| && (t.parametric[tag].params[i].kind.KType? || t.parametric[tag].params[i].kind.KClass?) &&
                 args[i].Some? && args[i].value.TypeRef? && PartOf(t, args[i].value.ty, part);
        DeepPartsAreScored(t, args[i].value.ty, part);
        PartsAreScored(t, ty, args[i].value.ty, i);
    }
  }

  /**
    At the version `v` the writer writes the operation, if some version writes it and its
    attributes are covered, and every type it mentions, at any depth, if some version writes
    it and its arguments and parameters are covered.
    */
  ghost predicate WrittenAt(t: TypeEnv, info: OpInfo, v: Version)
    requires InfoOk(info)
  {
    && (WritableOp(t.env, info) && AttrsScored(t.env.attrs, info) ==> WriteHead(At(t.env, v), info.s, info.h, info.used).Some?)
    && forall ty, part | OfType(ty) in ItemsOf(t.env.attrs, info) && PartOf(t, ty, part) && WritableType(t, part) ::
         PartsScored(t, part) && TypeCovered(t, part) ==> WriteType(TypesAt(t, v), part).Some?
  }

  /** The writer writes what `WrittenAt` says at the version the analyzer returns and at every later one. */
  lemma {:induction false} MinVersionWrites(t: TypeEnv, ops: seq<OpInfo>, items: seq<seq<Scored>>, i: nat, v: Version)
    requires |items| == |ops| && i < |ops| && InfoOk(ops[i]) && items[i] == ItemsOf(t.env.attrs, ops[i])
    requires v.AtLeast(Highest(t, Flatten(items)))
    ensures WrittenAt(t, ops[i], v)
  {
    hide Accepts, ItemsOf, PartsScored, TypeCovered, TypeFits, AttrsScored, InfoOk, Flatten, WriteHead, WriteType,
         TypeComplete, Complete, PartOf, TypeScore;
    var info := ops[i];
    MinVersionSuffices(t, ops, items, i, v);
    if WritableOp(t.env, info) && AttrsScored(t.env.attrs, info) {
      InfoShaped(info);
      var w :| Complete(info.s, w) && WriteHead(At(t.env, w), info.s, info.h, info.used).Some?;
      ResultsMatch(At(t.env, w), info);
      OpThreshold(t.env, w, v, info.s, info.h, info.used);
    }
    forall ty, part | OfType(ty) in items[i] && PartOf(t, ty, part) && WritableType(t, part) && PartsScored(t, part) &&
                      TypeCovered(t, part)
      ensures WriteType(TypesAt(t, v), part).Some?
    {
      InFlatten(items, i, OfType(ty));
      HighestIsMax(t, Flatten(items), OfType(ty));
      DeepPartsAreScored(t, ty, part);
      CoveredIsWritten(t, part, v);
    }
  }

  /** A covered type that some version writes is written from its score on. */
  lemma {:induction false} CoveredIsWritten(t: TypeEnv, ty: Type, v: Version)
    requires WritableType(t, ty) && PartsScored(t, ty) && TypeCovered(t, ty) && v.AtLeast(TypeScore(t, ty))
    ensures WriteType(TypesAt(t, v), ty).Some?
  {
    hide PartsScored, TypeCovered, TypeFits, WriteType, TypeComplete, TypeScore;
    var w :| TypeComplete(t, ty, w) && WriteType(TypesAt(t, w), ty).Some?;
    TypeScoreCovers(t, ty);
    TypeThreshold(t, w, v, ty);
  }

  /** An attribute that refers to a built-in type of 13.3, on an operation of 13.1. */
  function WithTypeAttr(): OpInfo {
    OpInfo(OpSchema(MIN, [], false, [FieldSchema(KType, MIN, false, false, NoDefault)], [], false, 0, false),
           Head([], [Some(TypeRef(Builtin(1)))], [[]]), [], [], [])
  }

  function WithNewBuiltin(): TypeEnv {
    TypeEnv(Env(MIN, [], [Some(Builtin(1))], [], map[]), map[1 := V13_3], map[])
  }

  /** Types that occur in attributes only are not scored: the operation is written at its score, its type is not. */
  lemma {:induction false} TypeInAttributeIsNotScored()
    ensures var t, info := WithNewBuiltin(), WithTypeAttr();
            && InfoOk(info) && AttrsScored(t.env.attrs, info) && Highest(t, ItemsOf(t.env.attrs, info)) == MIN
            && WriteHead(At(t.env, MIN), info.s, info.h, info.used).Some?
            && WriteType(TypesAt(t, MIN), Builtin(1)) == None && WriteType(TypesAt(t, V13_3), Builtin(1)).Some?
  {
    var t, info := WithNewBuiltin(), WithTypeAttr();
    TypeAttrItems(t, info);
    TypeAttrWritten(t, info);
  }

  lemma {:induction false} TypeAttrItems(t: TypeEnv, info: OpInfo)
    requires t == WithNewBuiltin() && info == WithTypeAttr()
    ensures InfoOk(info) && Highest(t, ItemsOf(t.env.attrs, info)) == MIN
  {
    var s := info.s;
    assert s.attrs[1..] == [] && info.h.attrs[1..] == [];
    assert AttrItems(map[], MIN, [], []) == [];
    assert AttrItems(map[], MIN, s.attrs, info.h.attrs) == [Fixed(MIN)];
    var items := ItemsOf(t.env.attrs, info);
    assert items == [Fixed(MIN), Fixed(MIN)];
    assert items[..1] == [Fixed(MIN)] && items[..1][..0] == [];
    assert Highest(t, []) == MIN && Highest(t, items[..1]) == MIN;
  }

  lemma {:induction false} TypeAttrWritten(t: TypeEnv, info: OpInfo)
    requires t == WithNewBuiltin() && info == WithTypeAttr()
    ensures InfoOk(info) && AttrsScored(t.env.attrs, info) && WriteHead(At(t.env, MIN), info.s, info.h, info.used).Some?
  {
    var s, h := info.s, info.h;
    assert s.attrs[1..] == [] && h.attrs[1..] == [];
    assert AttrVersions(s.attrs[1..]) == [] && AttrPresence(s.attrs[1..], h.attrs[1..]) == [];
    assert AttrVersions(s.attrs) == [] && AttrPresence(s.attrs, h.attrs) == [];
    assert WriteFields(t.env, [], []) == Some([]) && WriteTypes(t.env, []) == Some([]);
    assert Write(t.env, KType, TypeRef(Builtin(1))).Some?;
    assert WriteFields(t.env, s.attrs, h.attrs).Some?;
  }

  lemma {:induction false} InfoShaped(info: OpInfo)
    requires InfoOk(info)
    ensures Shaped(info.s, info.h) && |info.used| == |info.h.results|
  {
  }

  lemma {:induction false} ResultsMatch(env: Env, info: OpInfo)
    requires InfoOk(info) && WriteHead(env, info.s, info.h, info.used).Some?
    ensures info.s.HasVersionedResults() ==> |info.h.results| == |info.s.results|
  {
    hide WriteFlags, WriteFields, WriteOperands, Presence, WriteTypes, Kept, OpSchema.HasVersionedResults;
  }

  /** The whole analysis: score the operations one after the other. */
  method MinVersionOf(t: TypeEnv, ops: seq<OpInfo>) returns (v: Version)
    requires forall i :: 0 <= i < |ops| ==> InfoOk(ops[i])
    ensures forall i, later: Version :: 0 <= i < |ops| && later.AtLeast(v) ==> WrittenAt(t, ops[i], later)
  {
    hide InfoOk, ItemsOf, WrittenAt, Highest;
    var items: seq<seq<Scored>> := [];
    for i := 0 to |ops|
      invariant |items| == i && forall j :: 0 <= j < i ==> items[j] == ItemsOf(t.env.attrs, ops[j])
    {
      items := items + [ItemsOf(t.env.attrs, ops[i])];
    }
    v := GetMinBytecodeVersion(t, items);
    forall i, later: Version | 0 <= i < |ops| && later.AtLeast(v) ensures WrittenAt(t, ops[i], later) {
      MinVersionWrites(t, ops, items, i, later);
    }
  }

  lemma {:induction false} ResultType(since: Version, rs: seq<ResultSchema>, many: bool, types: seq<Type>,
                                      used: seq<bool>, i: nat)
    requires |used| == |types| == |rs| && i < |rs| && (used[i] || !since.Before(rs[i].since))
    ensures OfType(types[i]) in ResultItems(since, rs, many, types, used)
    decreases |rs|
  {
    if i > 0 {
      ResultType(since, rs[1..], many, types[1..], used[1..], i - 1);
    } else if many && |rs| == 1 {
      assert OfTypes(types)[0] == OfType(types[0]);
    }
  }

  /**
    A newer result nobody uses does not count, but a version that has the result writes its
    type: the type must be no newer than the result.
    */
  lemma {:induction false} WrittenResultTypeFits(t: TypeEnv, attrs: map<nat, AttrSchema>, info: OpInfo, v: Version, i: nat)
    requires InfoOk(info) && |info.h.results| == |info.s.results| && i < |info.s.results|
    requires AllAtLeast(t, v, ItemsOf(attrs, info)) && Compatible(info.s, v, info.s.results[i])
    requires PartsScored(t, info.h.results[i]) && TypeCovered(t, info.h.results[i])
    requires info.s.since.Before(info.s.results[i].since) && !info.used[i] ==>
               info.s.results[i].since.AtLeast(TypeScore(t, info.h.results[i]))
    ensures TypeFits(t, info.h.results[i], v)
    ensures WritableType(t, info.h.results[i]) ==> WriteType(TypesAt(t, v), info.h.results[i]).Some?
  {
    hide OperandItems, ResultItems, AttrItems, PartsScored, TypeCovered, TypeScore, TypeFits, WriteType, TypeComplete;
    var s, ty := info.s, info.h.results[i];
    if info.used[i] || !s.since.Before(s.results[i].since) {
      ResultType(s.since, s.results, s.manyResults, info.h.results, info.used, i);
      ItemsSplit(attrs, info, t, v);
      assert v.AtLeast(ItemScore(t, OfType(ty)));
    }
    TypeScoreCovers(t, ty);
    if WritableType(t, ty) {
      var w :| TypeComplete(t, ty, w) && WriteType(TypesAt(t, w), ty).Some?;
      TypeThreshold(t, w, v, ty);
    }
  }
}
