/**
  From which version on can something be written? Attributes have an exact threshold;
  operations are accepted from some version on unless a default value is newer than the
  field it stands for and some version leaves that field out.
  */
module MinVersion {
  import opened Base
  import opened BitFields
  import opened Ir
  import opened AttrCodec
  import opened OpCodec

  const LOWEST := Version(0, 0, 0)

  function At(env: Env, v: Version): Env {
    env.(version := v)
  }

  // ---------------------------------------------------------------- attributes

  /** The version an attribute needs, whatever the tables hold. */
  function Needs(attrs: map<nat, AttrSchema>, kind: Kind, a: Attr): Version
    decreases a, 1
  {
    match kind
    case KCase(e) => if a.Case? && a.value in e.cases && e.gated then e.cases[a.value] else LOWEST
    case KArray => if a.Array? then NeedsElems(attrs, a.elems) else LOWEST
    case KDict => if a.Dict? then NeedsEntries(attrs, a.entries) else LOWEST
    case KNested(_) => if a.Custom? then NeedsData(attrs, a.tag, a.params) else LOWEST
    case KSelfContained => NeedsTagged(attrs, a)
    case _ => LOWEST
  }

  function NeedsTagged(attrs: map<nat, AttrSchema>, a: Attr): Version
    decreases a, 0
  {
    match a
    case Array(elems) => NeedsElems(attrs, elems)
    case Dict(entries) => NeedsEntries(attrs, entries)
    case Custom(tag, params) => NeedsData(attrs, tag, params)
    case _ => LOWEST
  }

  function NeedsElems(attrs: map<nat, AttrSchema>, elems: seq<Attr>): Version
    decreases elems, 0
  {
    if elems == [] then LOWEST else MaxVersion(NeedsTagged(attrs, elems[0]), NeedsElems(attrs, elems[1..]))
  }

  function NeedsEntries(attrs: map<nat, AttrSchema>, entries: seq<Entry>): Version
    decreases entries, 0
  {
    if entries == [] then LOWEST
    else MaxVersion(NeedsTagged(attrs, entries[0].value), NeedsEntries(attrs, entries[1..]))
  }

  /** The newest optional parameter that is there. */
  function NewestPresent(ps: seq<ParamSchema>, params: seq<Option<Attr>>): Version
    requires |params| == |ps|
  {
    if ps == [] then LOWEST
    else MaxVersion(if ps[0].optional && params[0].Some? then ps[0].since else LOWEST, NewestPresent(ps[1..], params[1..]))
  }

  function NeedsData(attrs: map<nat, AttrSchema>, tag: nat, params: seq<Option<Attr>>): Version
    decreases params, 1
  {
    if tag !in attrs || |params| != |attrs[tag].params| then LOWEST
    else
      var ps := attrs[tag].params;
      MaxVersion(MaxVersion(attrs[tag].since, NewestPresent(ps, params)), NeedsParams(attrs, ps, params))
  }

  function NeedsParams(attrs: map<nat, AttrSchema>, ps: seq<ParamSchema>, params: seq<Option<Attr>>): Version
    requires |params| == |ps|
    decreases params, 0
  {
    if ps == [] then LOWEST
    else MaxVersion(NeedsParam(attrs, ps[0].kind, params[0]), NeedsParams(attrs, ps[1..], params[1..]))
  }

  function NeedsParam(attrs: map<nat, AttrSchema>, kind: Kind, param: Option<Attr>): Version
    decreases param, 0
  {
    match param
    case None => LOWEST
    case Some(a) => Needs(attrs, kind, a)
  }

  lemma {:induction false} AtLeastMax(v: Version, a: Version, b: Version)
    ensures v.AtLeast(MaxVersion(a, b)) <==> v.AtLeast(a) && v.AtLeast(b)
  {
  }

  /** No enumeration case, parameter or attribute at any depth is newer than `v`. */
  predicate NothingNewer(attrs: map<nat, AttrSchema>, kind: Kind, a: Attr, v: Version)
    decreases a, 1
  {
    match kind
    case KCase(e) => a.Case? && a.value in e.cases && e.gated ==> v.AtLeast(e.cases[a.value])
    case KArray => a.Array? ==> forall i :: 0 <= i < |a.elems| ==> NothingNewerTagged(attrs, a.elems[i], v)
    case KDict => a.Dict? ==> forall i :: 0 <= i < |a.entries| ==> NothingNewerTagged(attrs, a.entries[i].value, v)
    case KNested(_) => a.Custom? ==> NothingNewerTagged(attrs, a, v)
    case KSelfContained => NothingNewerTagged(attrs, a, v)
    case _ => true
  }

  predicate NothingNewerTagged(attrs: map<nat, AttrSchema>, a: Attr, v: Version)
    decreases a, 0
  {
    match a
    case Array(elems) => forall i :: 0 <= i < |elems| ==> NothingNewerTagged(attrs, elems[i], v)
    case Dict(entries) => forall i :: 0 <= i < |entries| ==> NothingNewerTagged(attrs, entries[i].value, v)
    case Custom(tag, params) =>
      tag in attrs && |params| == |attrs[tag].params| ==>
        && v.AtLeast(attrs[tag].since)
        && forall i :: 0 <= i < |params| ==> ParamNotNewer(attrs, attrs[tag].params[i], params[i], v)
    case _ => true
  }

  predicate ParamNotNewer(attrs: map<nat, AttrSchema>, p: ParamSchema, param: Option<Attr>, v: Version)
    decreases param, 0
  {
    match param
    case None => true
    case Some(a) => (p.optional ==> v.AtLeast(p.since)) && NothingNewer(attrs, p.kind, a, v)
  }

  /** The version an attribute needs is the lowest one that nothing in it is newer than. */
  lemma {:induction false} NeedsIsLowest(attrs: map<nat, AttrSchema>, kind: Kind, a: Attr, v: Version)
    ensures v.AtLeast(Needs(attrs, kind, a)) <==> NothingNewer(attrs, kind, a, v)
    decreases a, 1
  {
    hide NeedsTagged, NothingNewerTagged, NeedsData, NeedsElems, NeedsEntries;
    match kind
    case KArray =>
      if a.Array? {
        ElemsLowest(attrs, a.elems, v);
      }
    case KDict =>
      if a.Dict? {
        EntriesLowest(attrs, a.entries, v);
      }
    case KNested(_) =>
      if a.Custom? {
        TaggedLowest(attrs, a, v);
        CustomNeeds(attrs, a);
      }
    case KSelfContained => TaggedLowest(attrs, a, v);
    case _ =>
  }

  lemma {:induction false} CustomNeeds(attrs: map<nat, AttrSchema>, a: Attr)
    requires a.Custom?
    ensures NeedsTagged(attrs, a) == NeedsData(attrs, a.tag, a.params)
  {
  }

  lemma {:induction false} TaggedLowest(attrs: map<nat, AttrSchema>, a: Attr, v: Version)
    ensures v.AtLeast(NeedsTagged(attrs, a)) <==> NothingNewerTagged(attrs, a, v)
    decreases a, 0
  {
    hide NeedsElems, NeedsEntries, NeedsParams, NewestPresent, ParamNotNewer;
    match a
    case Array(elems) => ElemsLowest(attrs, elems, v);
    case Dict(entries) => EntriesLowest(attrs, entries, v);
    case Custom(tag, params) =>
      if tag in attrs && |params| == |attrs[tag].params| {
        var s := attrs[tag];
        ParamsLowest(attrs, s.params, params, v);
        AtLeastMax(v, MaxVersion(s.since, NewestPresent(s.params, params)), NeedsParams(attrs, s.params, params));
        AtLeastMax(v, s.since, NewestPresent(s.params, params));
      }
    case _ =>
  }

  lemma {:induction false} ElemsLowest(attrs: map<nat, AttrSchema>, elems: seq<Attr>, v: Version)
    ensures v.AtLeast(NeedsElems(attrs, elems)) <==> forall i :: 0 <= i < |elems| ==> NothingNewerTagged(attrs, elems[i], v)
    decreases elems, 0
  {
    hide NeedsTagged, NothingNewerTagged;
    if elems != [] {
      TaggedLowest(attrs, elems[0], v);
      ElemsLowest(attrs, elems[1..], v);
      AtLeastMax(v, NeedsTagged(attrs, elems[0]), NeedsElems(attrs, elems[1..]));
      assert elems == [elems[0]] + elems[1..];
    }
  }

  lemma {:induction false} EntriesLowest(attrs: map<nat, AttrSchema>, entries: seq<Entry>, v: Version)
    ensures v.AtLeast(NeedsEntries(attrs, entries)) <==>
            forall i :: 0 <= i < |entries| ==> NothingNewerTagged(attrs, entries[i].value, v)
    decreases entries, 0
  {
    hide NeedsTagged, NothingNewerTagged;
    if entries != [] {
      TaggedLowest(attrs, entries[0].value, v);
      EntriesLowest(attrs, entries[1..], v);
      AtLeastMax(v, NeedsTagged(attrs, entries[0].value), NeedsEntries(attrs, entries[1..]));
      assert entries == [entries[0]] + entries[1..];
    }
  }

  lemma {:induction false} ParamsLowest(attrs: map<nat, AttrSchema>, ps: seq<ParamSchema>, params: seq<Option<Attr>>, v: Version)
    requires |params| == |ps|
    ensures v.AtLeast(NewestPresent(ps, params)) && v.AtLeast(NeedsParams(attrs, ps, params)) <==>
            forall i :: 0 <= i < |ps| ==> ParamNotNewer(attrs, ps[i], params[i], v)
    decreases params, 0
  {
    hide NeedsParam, ParamNotNewer;
    if ps != [] {
      var first := if ps[0].optional && params[0].Some? then ps[0].since else LOWEST;
      ParamLowest(attrs, ps[0], params[0], v);
      ParamsLowest(attrs, ps[1..], params[1..], v);
      AtLeastMax(v, first, NewestPresent(ps[1..], params[1..]));
      AtLeastMax(v, NeedsParam(attrs, ps[0].kind, params[0]), NeedsParams(attrs, ps[1..], params[1..]));
      assert ps == [ps[0]] + ps[1..] && params == [params[0]] + params[1..];
    }
  }

  lemma {:induction false} ParamLowest(attrs: map<nat, AttrSchema>, p: ParamSchema, param: Option<Attr>, v: Version)
    ensures (p.optional && param.Some? ==> v.AtLeast(p.since)) && v.AtLeast(NeedsParam(attrs, p.kind, param)) <==>
            ParamNotNewer(attrs, p, param, v)
    decreases param, 0
  {
    hide Needs, NothingNewer;
    match param
    case None =>
    case Some(a) => NeedsIsLowest(attrs, p.kind, a, v);
  }

  /** What is written from a threshold on, and is the same bytes in every version. */
  function From(v: Version, needed: Version, written: Option<bytes>): Option<bytes> {
    if v.AtLeast(needed) then written else None
  }

  /**
    An attribute that some version can write is written by exactly the versions from the
    one it needs on, and always as the same bytes.
    */
  lemma {:induction false} AttrThreshold(env: Env, w: Version, v: Version, kind: Kind, a: Attr)
    requires Write(At(env, w), kind, a).Some?
    ensures Write(At(env, v), kind, a) == From(v, Needs(env.attrs, kind, a), Write(At(env, w), kind, a))
    decreases a, 1
  {
    hide WriteData, WriteElems, WriteEntries, WriteTagged, NeedsData, NeedsElems, NeedsEntries, NeedsTagged;
    match kind
    case KArray => ElemsThreshold(env, w, v, a.elems);
    case KDict => EntriesThreshold(env, w, v, a.entries);
    case KNested(tag) => DataThreshold(env, w, v, tag, a.params);
    case KSelfContained => TaggedThreshold(env, w, v, a);
    case _ =>
  }

  lemma {:induction false} TaggedThreshold(env: Env, w: Version, v: Version, a: Attr)
    requires WriteTagged(At(env, w), a).Some?
    ensures WriteTagged(At(env, v), a) == From(v, NeedsTagged(env.attrs, a), WriteTagged(At(env, w), a))
    decreases a, 0
  {
    hide WriteData, WriteElems, WriteEntries, NeedsData, NeedsElems, NeedsEntries;
    match a
    case Array(elems) => ElemsThreshold(env, w, v, elems);
    case Dict(entries) => EntriesThreshold(env, w, v, entries);
    case Custom(tag, params) => DataThreshold(env, w, v, tag, params);
    case _ =>
  }

  lemma {:induction false} ElemsThreshold(env: Env, w: Version, v: Version, elems: seq<Attr>)
    requires WriteElems(At(env, w), elems).Some?
    ensures WriteElems(At(env, v), elems) == From(v, NeedsElems(env.attrs, elems), WriteElems(At(env, w), elems))
    decreases elems, 0
  {
    hide WriteTagged, NeedsTagged;
    if elems != [] {
      TaggedThreshold(env, w, v, elems[0]);
      ElemsThreshold(env, w, v, elems[1..]);
      AtLeastMax(v, NeedsTagged(env.attrs, elems[0]), NeedsElems(env.attrs, elems[1..]));
    }
  }

  lemma {:induction false} EntriesThreshold(env: Env, w: Version, v: Version, entries: seq<Entry>)
    requires WriteEntries(At(env, w), entries).Some?
    ensures WriteEntries(At(env, v), entries) == From(v, NeedsEntries(env.attrs, entries), WriteEntries(At(env, w), entries))
    decreases entries, 0
  {
    hide WriteTagged, NeedsTagged;
    if entries != [] {
      TaggedThreshold(env, w, v, entries[0].value);
      EntriesThreshold(env, w, v, entries[1..]);
      AtLeastMax(v, NeedsTagged(env.attrs, entries[0].value), NeedsEntries(env.attrs, entries[1..]));
    }
  }

  lemma {:induction false} AdmissibleFrom(v: Version, w: Version, ps: seq<ParamSchema>, params: seq<Option<Attr>>)
    requires Admissible(w, ps, params)
    ensures Admissible(v, ps, params) <==> v.AtLeast(NewestPresent(ps, params))
  {
    if ps != [] {
      var p, rest := if ps[0].optional && params[0].Some? then ps[0].since else LOWEST, NewestPresent(ps[1..], params[1..]);
      assert Admissible(w, ps[1..], params[1..]);
      AdmissibleFrom(v, w, ps[1..], params[1..]);
      AtLeastMax(v, p, rest);
      assert ps == [ps[0]] + ps[1..] && params == [params[0]] + params[1..];
      assert Admissible(v, ps, params) <==> Admissible(v, ps[1..], params[1..]) && v.AtLeast(p);
    }
  }

  /** The version the parameters of one phase need. */
  function NeedsPhase(attrs: map<nat, AttrSchema>, ps: seq<ParamSchema>, params: seq<Option<Attr>>, now: seq<bool>): Version
    requires |params| == |ps| == |now|
  {
    if ps == [] then LOWEST
    else MaxVersion(if now[0] then NeedsParam(attrs, ps[0].kind, params[0]) else LOWEST,
                    NeedsPhase(attrs, ps[1..], params[1..], now[1..]))
  }

  lemma {:induction false} PhaseThreshold(env: Env, w: Version, v: Version, ps: seq<ParamSchema>,
                                          params: seq<Option<Attr>>, now: seq<bool>)
    requires |params| == |ps| == |now| && WritePhase(At(env, w), ps, params, now).Some?
    ensures WritePhase(At(env, v), ps, params, now) ==
            From(v, NeedsPhase(env.attrs, ps, params, now), WritePhase(At(env, w), ps, params, now))
    decreases params, 0
  {
    hide WriteParam, NeedsParam;
    if ps != [] {
      PhaseThreshold(env, w, v, ps[1..], params[1..], now[1..]);
      if now[0] {
        ParamThreshold(env, w, v, ps[0].kind, params[0]);
        AtLeastMax(v, NeedsParam(env.attrs, ps[0].kind, params[0]), NeedsPhase(env.attrs, ps[1..], params[1..], now[1..]));
      }
    }
  }

  lemma {:induction false} ParamThreshold(env: Env, w: Version, v: Version, kind: Kind, param: Option<Attr>)
    requires WriteParam(At(env, w), kind, param).Some?
    ensures WriteParam(At(env, v), kind, param) == From(v, NeedsParam(env.attrs, kind, param), WriteParam(At(env, w), kind, param))
    decreases param, 0
  {
    hide Write, Needs;
    match param
    case Some(a) => AttrThreshold(env, w, v, kind, a);
  }

  /** Every parameter that is there belongs to one of the two phases. */
  lemma {:induction false} PhasesCover(attrs: map<nat, AttrSchema>, v: Version, ps: seq<ParamSchema>,
                                       params: seq<Option<Attr>>)
    requires |params| == |ps|
    ensures v.AtLeast(NeedsParams(attrs, ps, params)) <==>
            v.AtLeast(NeedsPhase(attrs, ps, params, Required(ps))) && v.AtLeast(NeedsPhase(attrs, ps, params, Present(ps, params)))
    decreases |ps|
  {
    hide NeedsParam;
    if ps != [] {
      PhasesCover(attrs, v, ps[1..], params[1..]);
      assert Required(ps)[1..] == Required(ps[1..]) && Present(ps, params)[1..] == Present(ps[1..], params[1..]);
      NothingNeeded(attrs, ps[0].kind);
      var head := NeedsParam(attrs, ps[0].kind, params[0]);
      AtLeastMax(v, head, NeedsParams(attrs, ps[1..], params[1..]));
      AtLeastMax(v, if !ps[0].optional then head else LOWEST, NeedsPhase(attrs, ps[1..], params[1..], Required(ps[1..])));
      AtLeastMax(v, if ps[0].optional && params[0].Some? then head else LOWEST,
                 NeedsPhase(attrs, ps[1..], params[1..], Present(ps[1..], params[1..])));
    }
  }

  lemma {:induction false} NothingNeeded(attrs: map<nat, AttrSchema>, kind: Kind)
    ensures NeedsParam(attrs, kind, None) == LOWEST
  {
  }

  lemma {:induction false} DataThreshold(env: Env, w: Version, v: Version, tag: nat, params: seq<Option<Attr>>)
    requires WriteData(At(env, w), tag, params).Some?
    ensures WriteData(At(env, v), tag, params) == From(v, NeedsData(env.attrs, tag, params), WriteData(At(env, w), tag, params))
    decreases params, 1
  {
    hide WritePhase, NeedsPhase, Admissible, NewestPresent, NeedsParams, Required, Present, PresenceWord, Count;
    DataSchema(env, w, tag, params);
    var schema := env.attrs[tag];
    var ps := schema.params;
    PhaseThreshold(env, w, v, ps, params, Required(ps));
    PhaseThreshold(env, w, v, ps, params, Present(ps, params));
    AdmissibleFrom(v, w, ps, params);
    PhasesCover(env.attrs, v, ps, params);
    AtLeastMax(v, MaxVersion(schema.since, NewestPresent(ps, params)), NeedsParams(env.attrs, ps, params));
    AtLeastMax(v, schema.since, NewestPresent(ps, params));
  }

  lemma {:induction false} DataSchema(env: Env, w: Version, tag: nat, params: seq<Option<Attr>>)
    requires WriteData(At(env, w), tag, params).Some?
    ensures tag in env.attrs && |params| == |env.attrs[tag].params|
  {
  }

  // ---------------------------------------------------------------- operations

  /** A version that has every field of the operation. */
  predicate Complete(s: OpSchema, w: Version) {
    && (forall i :: 0 <= i < |s.results| ==> w.AtLeast(s.results[i].since))
    && (forall i :: 0 <= i < |s.attrs| ==> w.AtLeast(s.attrs[i].since))
    && (forall i :: 0 <= i < |s.OptionalFields()| ==> w.AtLeast(s.OptionalFields()[i]))
  }

  predicate ResultsFit(s: OpSchema, v: Version, rs: seq<ResultSchema>, used: seq<bool>)
    requires |used| == |rs|
  {
    forall i :: 0 <= i < |rs| && used[i] ==> Compatible(s, v, rs[i])
  }

  /** A required field that is left out where the version does not have it. */
  predicate Skippable(f: FieldSchema, a: Attr) {
    match f.fallback
    case Default(d) => a == d
    case AllFalse(_) => AllZero(a)
    case NoDefault => true
  }

  predicate FieldFits(attrs: map<nat, AttrSchema>, f: FieldSchema, a: Option<Attr>, v: Version) {
    f.unit || a.None? ||
    if f.optional || v.AtLeast(f.since) then v.AtLeast(Needs(attrs, f.kind, a.value)) else Skippable(f, a.value)
  }

  predicate FieldsFit(attrs: map<nat, AttrSchema>, fs: seq<FieldSchema>, attrsOf: seq<Option<Attr>>, v: Version)
    requires |attrsOf| == |fs|
  {
    forall i :: 0 <= i < |fs| ==> FieldFits(attrs, fs[i], attrsOf[i], v)
  }

  /** Everything the writer checks of an operation that has to do with versions. */
  predicate Accepts(attrs: map<nat, AttrSchema>, s: OpSchema, h: Head, used: seq<bool>, v: Version)
    requires Shaped(s, h) && |used| == |h.results|
  {
    && (s.HasVersionedResults() ==> |h.results| == |s.results| && ResultsFit(s, v, s.results, used))
    && FieldsAllowed(s, v, Presence(s, h))
    && FieldsFit(attrs, s.attrs, h.attrs, v)
  }

  lemma {:induction false} KeptIff(env: Env, s: OpSchema, w: Version, v: Version, rs: seq<ResultSchema>,
                                   types: seq<Type>, used: seq<bool>)
    requires |types| == |rs| == |used| && (forall i :: 0 <= i < |rs| ==> w.AtLeast(rs[i].since))
    ensures Kept(s, w, rs, types, used) == Some(types)
    ensures Kept(s, v, rs, types, used).Some? <==> ResultsFit(s, v, rs, used)
    ensures Kept(s, v, rs, types, used).Some? && WriteTypes(env, types).Some? ==>
              WriteTypes(env, Kept(s, v, rs, types, used).value).Some?
    decreases |rs|
  {
    if rs != [] {
      KeptIff(env, s, w, v, rs[1..], types[1..], used[1..]);
      assert types == [types[0]] + types[1..];
      assert ResultsFit(s, v, rs, used) <==> (used[0] ==> Compatible(s, v, rs[0])) && ResultsFit(s, v, rs[1..], used[1..]) by {
        assert rs == [rs[0]] + rs[1..] && used == [used[0]] + used[1..];
      }
    }
  }

  lemma {:induction false} TypesAnyVersion(env: Env, v: Version, types: seq<Type>)
    ensures WriteTypes(At(env, v), types) == WriteTypes(env, types)
  {
    if types != [] {
      TypesAnyVersion(env, v, types[1..]);
    }
  }

  lemma {:induction false} ResultsThreshold(env: Env, w: Version, v: Version, s: OpSchema, types: seq<Type>,
                                            used: seq<bool>)
    requires |used| == |types| && Complete(s, w) && WriteResults(At(env, w), s, types, used).Some?
    ensures WriteResults(At(env, v), s, types, used).Some? <==>
            (s.HasVersionedResults() ==> |types| == |s.results| && ResultsFit(s, v, s.results, used))
  {
    hide WriteTypes, Kept;
    if s.HasVersionedResults() && |types| == |s.results| {
      KeptIff(env, s, w, v, s.results, types, used);
      TypesAnyVersion(env, w, types);
      if Kept(s, v, s.results, types, used).Some? {
        TypesAnyVersion(env, v, Kept(s, v, s.results, types, used).value);
      }
    } else {
      TypesAnyVersion(env, w, types);
      TypesAnyVersion(env, v, types);
    }
  }

  lemma {:induction false} FlagsThreshold(s: OpSchema, w: Version, v: Version, present: seq<bool>)
    requires Complete(s, w) && |present| == |s.OptionalFields()| && WriteFlags(s, w, present).Some?
    ensures WriteFlags(s, v, present).Some? <==> FieldsAllowed(s, v, present)
  {
    hide Flags;
    if s.OptionalFields() != [] {
      assert Oldest(s.OptionalFields()) in s.OptionalFields();
      assert s.HasFlags(w);
    }
  }

  lemma {:induction false} FieldThreshold(env: Env, w: Version, v: Version, f: FieldSchema, a: Option<Attr>)
    requires w.AtLeast(f.since) && WriteField(At(env, w), f, a).Some?
    ensures WriteField(At(env, v), f, a).Some? <==> FieldFits(env.attrs, f, a, v)
  {
    hide Write, Needs;
    if !f.unit && a.Some? {
      AttrThreshold(env, w, v, f.kind, a.value);
    }
  }

  lemma {:induction false} FieldsThreshold(env: Env, w: Version, v: Version, fs: seq<FieldSchema>, attrs: seq<Option<Attr>>)
    requires |attrs| == |fs| && (forall i :: 0 <= i < |fs| ==> w.AtLeast(fs[i].since))
    requires WriteFields(At(env, w), fs, attrs).Some?
    ensures WriteFields(At(env, v), fs, attrs).Some? <==> FieldsFit(env.attrs, fs, attrs, v)
    decreases |fs|
  {
    hide WriteField, FieldFits;
    if fs != [] {
      FieldThreshold(env, w, v, fs[0], attrs[0]);
      FieldsThreshold(env, w, v, fs[1..], attrs[1..]);
      assert fs == [fs[0]] + fs[1..] && attrs == [attrs[0]] + attrs[1..];
    }
  }

  lemma {:induction false} AttrsMatch(s: OpSchema, h: Head)
    requires Shaped(s, h)
    ensures |h.attrs| == |s.attrs|
  {
  }

  /**
    An operation that some complete version can write is refused by another version for
    reasons of versions only, and `Accepts` lists them all.
    */
  lemma {:induction false} OpThreshold(env: Env, w: Version, v: Version, s: OpSchema, h: Head, used: seq<bool>)
    requires Shaped(s, h) && |used| == |h.results| && Complete(s, w) && WriteHead(At(env, w), s, h, used).Some?
    ensures WriteHead(At(env, v), s, h, used).Some? <==> Accepts(env.attrs, s, h, used, v)
  {
    hide WriteResults, WriteFlags, WriteFields, WriteOperands, FieldsAllowed, FieldsFit, ResultsFit, Presence, Shaped;
    AttrsMatch(s, h);
    ResultsThreshold(env, w, v, s, h.results, used);
    FlagsThreshold(s, w, v, Presence(s, h));
    FieldsThreshold(env, w, v, s.attrs, h.attrs);
  }

  // ---------------------------------------------------------------- upward closure

  /**
    A required field that came after its operation, which is there from `since` on: the value
    it has where it is left out must not be newer than the field. (The writer takes only
    versions that have the operation.)
    */
  predicate FallbackIsOld(attrs: map<nat, AttrSchema>, since: Version, f: FieldSchema, a: Option<Attr>) {
    since.Before(f.since) && !f.unit && !f.optional && a.Some? && Skippable(f, a.value) ==>
      f.since.AtLeast(Needs(attrs, f.kind, a.value))
  }

  /** What one version with the operation takes every later one takes, exactly for fields whose fallback is old. */
  lemma {:induction false} FieldUpwardClosed(attrs: map<nat, AttrSchema>, since: Version, f: FieldSchema, a: Option<Attr>)
    ensures FallbackIsOld(attrs, since, f, a) <==>
            forall v1: Version, v2: Version :: v1.AtLeast(since) && FieldFits(attrs, f, a, v1) && v2.AtLeast(v1) ==>
                                                 FieldFits(attrs, f, a, v2)
  {
    hide Needs, Skippable;
    if forall v1: Version, v2: Version :: v1.AtLeast(since) && FieldFits(attrs, f, a, v1) && v2.AtLeast(v1) ==>
                                            FieldFits(attrs, f, a, v2) {
      assert FieldFits(attrs, f, a, since) && f.since.AtLeast(since) ==> FieldFits(attrs, f, a, f.since);
    }
  }

  /** No version from before the field takes the operation: something else already needs the field's version. */
  ghost predicate NotTakenBefore(attrs: map<nat, AttrSchema>, s: OpSchema, h: Head, used: seq<bool>, since: Version)
    requires Shaped(s, h) && |used| == |h.results|
  {
    forall v: Version :: v.AtLeast(s.since) && v.Before(since) ==> !Accepts(attrs, s, h, used, v)
  }

  /** Every field has an old fallback, or is never left out. */
  ghost predicate FallbacksFit(attrs: map<nat, AttrSchema>, s: OpSchema, h: Head, used: seq<bool>)
    requires Shaped(s, h) && |used| == |h.results|
  {
    forall i :: 0 <= i < |s.attrs| && !FallbackIsOld(attrs, s.since, s.attrs[i], h.attrs[i]) ==>
                  NotTakenBefore(attrs, s, h, used, s.attrs[i].since)
  }

  lemma {:induction false} TakenLater(attrs: map<nat, AttrSchema>, s: OpSchema, h: Head, used: seq<bool>, v1: Version, v2: Version)
    requires Shaped(s, h) && |used| == |h.results| && Accepts(attrs, s, h, used, v1) && v2.AtLeast(v1)
    requires v1.AtLeast(s.since) && FallbacksFit(attrs, s, h, used)
    ensures Accepts(attrs, s, h, used, v2)
  {
    hide FieldFits, FallbackIsOld, Shaped, Presence;
    assert |h.attrs| == |s.attrs| by {
      AttrsMatch(s, h);
    }
    forall i | 0 <= i < |s.attrs| ensures FieldFits(attrs, s.attrs[i], h.attrs[i], v2) {
      if FallbackIsOld(attrs, s.since, s.attrs[i], h.attrs[i]) {
        FieldUpwardClosed(attrs, s.since, s.attrs[i], h.attrs[i]);
      } else {
        assert NotTakenBefore(attrs, s, h, used, s.attrs[i].since);
        FitsFromItsVersionOn(attrs, s.attrs[i], h.attrs[i], v1, v2);
      }
    }
  }

  lemma {:induction false} FitsFromItsVersionOn(attrs: map<nat, AttrSchema>, f: FieldSchema, a: Option<Attr>,
                                                v1: Version, v2: Version)
    requires v1.AtLeast(f.since) && v2.AtLeast(v1) && FieldFits(attrs, f, a, v1)
    ensures FieldFits(attrs, f, a, v2)
  {
  }

  /** A field whose fallback is newer refuses the version it comes with. */
  lemma {:induction false} RefusedAtSince(attrs: map<nat, AttrSchema>, since: Version, f: FieldSchema, a: Option<Attr>)
    requires !FallbackIsOld(attrs, since, f, a)
    ensures !FieldFits(attrs, f, a, f.since) && f.since.AtLeast(since)
  {
    hide Needs, Skippable;
  }

  /** What one version that has the operation takes of it, every later version takes. */
  ghost predicate UpwardClosed(attrs: map<nat, AttrSchema>, s: OpSchema, h: Head, used: seq<bool>)
    requires Shaped(s, h) && |used| == |h.results|
  {
    forall v1: Version, v2: Version ::
      v1.AtLeast(s.since) && Accepts(attrs, s, h, used, v1) && v2.AtLeast(v1) ==> Accepts(attrs, s, h, used, v2)
  }

  /** Acceptance is upward closed, exactly if each field has an old fallback or comes too late to be left out. */
  lemma {:induction false} OpUpwardClosed(attrs: map<nat, AttrSchema>, s: OpSchema, h: Head, used: seq<bool>)
    requires Shaped(s, h) && |used| == |h.results|
    ensures FallbacksFit(attrs, s, h, used) <==> UpwardClosed(attrs, s, h, used)
  {
    hide FieldFits, FallbackIsOld, Shaped, Presence, ResultsFit, FieldsAllowed;
    if FallbacksFit(attrs, s, h, used) {
      forall v1: Version, v2: Version | v1.AtLeast(s.since) && Accepts(attrs, s, h, used, v1) && v2.AtLeast(v1)
        ensures Accepts(attrs, s, h, used, v2)
      {
        TakenLater(attrs, s, h, used, v1, v2);
      }
    } else {
      AttrsMatch(s, h);
      var i :| 0 <= i < |s.attrs| && !FallbackIsOld(attrs, s.since, s.attrs[i], h.attrs[i]) &&
               !NotTakenBefore(attrs, s, h, used, s.attrs[i].since);
      var v: Version :| v.AtLeast(s.since) && v.Before(s.attrs[i].since) && Accepts(attrs, s, h, used, v);
      RefusedAtSince(attrs, s.since, s.attrs[i], h.attrs[i]);
      assert !FieldsFit(attrs, s.attrs, h.attrs, s.attrs[i].since);
      assert !Accepts(attrs, s, h, used, s.attrs[i].since);
    }
  }

  /** An enumeration attribute as old as its operation, holding a case of 13.3: written from 13.3 on. */
  lemma {:induction false} NewerCaseIsUpwardClosed()
    ensures var f := FieldSchema(KCase(LATE_CASES), Version(13, 1, 0), false, false, NoDefault);
            var s := OpSchema(Version(13, 1, 0), [ResultSchema(Version(13, 1, 0), I1)], false, [f], [], false, 0, false);
            && Shaped(s, WITH_DEFAULT) && UpwardClosed(map[], s, WITH_DEFAULT, [true])
            && forall v: Version :: v.AtLeast(s.since) ==> (Accepts(map[], s, WITH_DEFAULT, [true], v) <==> v.AtLeast(V13_3))
  {
    var f := FieldSchema(KCase(LATE_CASES), Version(13, 1, 0), false, false, NoDefault);
    var s := OpSchema(Version(13, 1, 0), [ResultSchema(Version(13, 1, 0), I1)], false, [f], [], false, 0, false);
    assert Needs(map[], KCase(LATE_CASES), Case(0)) == V13_3;
    assert Presence(s, WITH_DEFAULT) == [];
    forall v: Version | v.AtLeast(s.since) ensures Accepts(map[], s, WITH_DEFAULT, [true], v) <==> v.AtLeast(V13_3) {
      assert FieldFits(map[], f, Some(Case(0)), v) <==> v.AtLeast(V13_3);
      assert FieldsFit(map[], s.attrs, WITH_DEFAULT.attrs, v) <==> FieldFits(map[], s.attrs[0], WITH_DEFAULT.attrs[0], v);
    }
    assert FallbackIsOld(map[], s.since, s.attrs[0], WITH_DEFAULT.attrs[0]);
    assert FallbacksFit(map[], s, WITH_DEFAULT, [true]);
    OpUpwardClosed(map[], s, WITH_DEFAULT, [true]);
  }

  /** A field of 13.2 whose default is an enumeration case of 13.3. */
  const LATE_CASES := Cases(Version(13, 1, 0), true, true, map[0 := V13_3])
  const LATE_DEFAULT := FieldSchema(KCase(LATE_CASES), Version(13, 2, 0), false, false, Default(Case(0)))

  /** An operation with that field and one result. */
  function WithLateDefault(result: Version): OpSchema {
    OpSchema(Version(13, 1, 0), [ResultSchema(result, I1)], false, [LATE_DEFAULT], [], false, 0, false)
  }

  const WITH_DEFAULT := Head([I1], [Some(Case(0))], [[]])

  lemma {:induction false} LateDefaultAccepted(result: Version, v: Version)
    requires result == Version(13, 1, 0) || result == V13_3
    ensures Shaped(WithLateDefault(result), WITH_DEFAULT) && !FallbackIsOld(map[], Version(13, 1, 0), LATE_DEFAULT, Some(Case(0)))
    ensures Accepts(map[], WithLateDefault(result), WITH_DEFAULT, [true], v) <==>
            (result == Version(13, 1, 0) || v.AtLeast(result)) && (v.Before(Version(13, 2, 0)) || v.AtLeast(V13_3))
  {
    var s := WithLateDefault(result);
    assert Needs(map[], KCase(LATE_CASES), Case(0)) == V13_3;
    assert FieldFits(map[], LATE_DEFAULT, Some(Case(0)), v) <==> v.Before(Version(13, 2, 0)) || v.AtLeast(V13_3);
    assert s.HasVersionedResults() <==> result == V13_3 by {
      assert s.results[0].since == result;
    }
    assert Presence(s, WITH_DEFAULT) == [];
    assert FieldsFit(map[], s.attrs, WITH_DEFAULT.attrs, v) <==> FieldFits(map[], s.attrs[0], WITH_DEFAULT.attrs[0], v);
  }

  /**
    The condition is needed: the operation is written for 13.1 without the field, refused by
    13.2, which has the field but not its value, and written by 13.3. With a used result of
    13.3 no version leaves the field out, and every version from 13.3 on takes the operation.
    */
  lemma {:induction false} NewDefaultIsNotUpwardClosed()
    ensures var s := WithLateDefault(Version(13, 1, 0));
            && Shaped(s, WITH_DEFAULT)
            && Accepts(map[], s, WITH_DEFAULT, [true], Version(13, 1, 0))
            && !Accepts(map[], s, WITH_DEFAULT, [true], Version(13, 2, 0))
            && Accepts(map[], s, WITH_DEFAULT, [true], V13_3)
    ensures var s := WithLateDefault(V13_3);
            && Shaped(s, WITH_DEFAULT) && !FallbackIsOld(map[], s.since, s.attrs[0], WITH_DEFAULT.attrs[0])
            && FallbacksFit(map[], s, WITH_DEFAULT, [true])
            && Accepts(map[], s, WITH_DEFAULT, [true], V13_3)
  {
    hide Accepts, FallbackIsOld;
    LateDefaultAccepted(Version(13, 1, 0), Version(13, 1, 0));
    LateDefaultAccepted(Version(13, 1, 0), Version(13, 2, 0));
    LateDefaultAccepted(Version(13, 1, 0), V13_3);
    LateDefaultAccepted(V13_3, V13_3);
    forall v: Version | v.Before(Version(13, 2, 0)) ensures !Accepts(map[], WithLateDefault(V13_3), WITH_DEFAULT, [true], v) {
      LateDefaultAccepted(V13_3, v);
    }
  }
}
