/**
  Schema evolution. The bytes of an operation at version `v` are those of the schema cut at
  `v`: a writer that knows later fields and a reader that does not, and the other way
  round, understand each other, exactly if both count results and operands alike and no
  operand that the version lacks, and has no flag for, has a value.
  */
module Evolution {
  import opened Base
  import opened VarInts
  import opened BitFields
  import opened Ir
  import opened AttrCodec
  import opened AttrRoundTrip
  import opened OpCodec
  import opened OpRoundTrip
  import Tables

  // ---------------------------------------------------------------- the schema of a version

  predicate OperandKept(v: Version, o: OperandSchema) {
    v.AtLeast(o.since)
  }

  function CutOperands(v: Version, os: seq<OperandSchema>): (r: seq<OperandSchema>)
    ensures |r| <= |os|
  {
    if os == [] then [] else (if OperandKept(v, os[0]) then [os[0]] else []) + CutOperands(v, os[1..])
  }

  /** The fallback's operand is counted among the operands that are left. */
  function CutField(v: Version, os: seq<OperandSchema>, f: FieldSchema): FieldSchema {
    if f.fallback.AllFalse? && f.fallback.operand < |os| then
      f.(fallback := AllFalse(|CutOperands(v, os[..f.fallback.operand])|))
    else f
  }

  function CutFields(v: Version, os: seq<OperandSchema>, fs: seq<FieldSchema>): seq<FieldSchema> {
    if fs == [] then []
    else (if v.AtLeast(fs[0].since) then [CutField(v, os, fs[0])] else []) + CutFields(v, os, fs[1..])
  }

  function CutResults(s: OpSchema, v: Version, rs: seq<ResultSchema>): seq<ResultSchema> {
    if rs == [] then [] else (if Compatible(s, v, rs[0]) then [rs[0]] else []) + CutResults(s, v, rs[1..])
  }

  /** The schema as it was in version `v`. */
  function CutSchema(s: OpSchema, v: Version): OpSchema {
    s.(results := CutResults(s, v, s.results),
       attrs := CutFields(v, s.operands, s.attrs),
       operands := CutOperands(v, s.operands))
  }

  function CutAttrs(v: Version, fs: seq<FieldSchema>, attrs: seq<Option<Attr>>): seq<Option<Attr>>
    requires |attrs| == |fs|
  {
    if fs == [] then []
    else (if v.AtLeast(fs[0].since) then [attrs[0]] else []) + CutAttrs(v, fs[1..], attrs[1..])
  }

  function CutGroups(v: Version, os: seq<OperandSchema>, groups: seq<seq<nat>>): seq<seq<nat>>
    requires |groups| == |os|
  {
    if os == [] then []
    else (if OperandKept(v, os[0]) then [groups[0]] else []) + CutGroups(v, os[1..], groups[1..])
  }

  function CutList<T>(s: OpSchema, v: Version, rs: seq<ResultSchema>, xs: seq<T>): (r: seq<T>)
    requires |xs| == |rs|
    ensures |r| == |CutResults(s, v, rs)|
  {
    if rs == [] then []
    else (if Compatible(s, v, rs[0]) then [xs[0]] else []) + CutList(s, v, rs[1..], xs[1..])
  }

  /** Without segments the operands are one list. */
  function Operands(s: OpSchema, groups: seq<seq<nat>>): seq<seq<nat>> {
    if s.segmented then groups else [Tables.Concat(groups)]
  }

  /** The operands of the head, grouped by the operands of the schema. */
  predicate Grouped(s: OpSchema, h: Head, groups: seq<seq<nat>>)
    requires |groups| == |s.operands|
  {
    (forall i :: 0 <= i < |groups| ==> GroupFits(s.operands[i], groups[i])) &&
    h.operands == Operands(s, groups)
  }

  /** The part of an operation that version `v` knows. */
  function CutHead(s: OpSchema, v: Version, h: Head, groups: seq<seq<nat>>): Head
    requires Shaped(s, h) && |groups| == |s.operands|
  {
    Head(if s.HasVersionedResults() && |h.results| == |s.results| then CutList(s, v, s.results, h.results) else h.results,
         CutAttrs(v, s.attrs, h.attrs),
         Operands(s, CutGroups(v, s.operands, groups)))
  }

  function CutUsed(s: OpSchema, v: Version, used: seq<bool>): seq<bool> {
    if s.HasVersionedResults() && |used| == |s.results| then CutList(s, v, s.results, used) else used
  }

  /** The number of results is written by both schemas or by neither. */
  predicate CountsAlike(s: OpSchema, v: Version) {
    s.CountsResults() <==> CutSchema(s, v).CountsResults()
  }

  // ---------------------------------------------------------------- shape

  lemma {:induction false} CutAttrsShaped(v: Version, os: seq<OperandSchema>, fs: seq<FieldSchema>,
                                          attrs: seq<Option<Attr>>)
    requires |attrs| == |fs|
    requires forall i :: 0 <= i < |fs| && !fs[i].optional ==> attrs[i].Some?
    requires forall i :: 0 <= i < |fs| && fs[i].unit && attrs[i].Some? ==> attrs[i] == Some(Unit)
    ensures |CutAttrs(v, fs, attrs)| == |CutFields(v, os, fs)|
    ensures forall i :: 0 <= i < |CutFields(v, os, fs)| && !CutFields(v, os, fs)[i].optional ==> CutAttrs(v, fs, attrs)[i].Some?
    ensures forall i :: 0 <= i < |CutFields(v, os, fs)| && CutFields(v, os, fs)[i].unit && CutAttrs(v, fs, attrs)[i].Some? ==>
                          CutAttrs(v, fs, attrs)[i] == Some(Unit)
  {
    if fs != [] {
      CutAttrsShaped(v, os, fs[1..], attrs[1..]);
    }
  }

  lemma {:induction false} CutGroupsShaped(v: Version, os: seq<OperandSchema>, groups: seq<seq<nat>>)
    requires |groups| == |os| && forall i :: 0 <= i < |os| ==> GroupFits(os[i], groups[i])
    ensures |CutGroups(v, os, groups)| == |CutOperands(v, os)|
    ensures forall i :: 0 <= i < |CutOperands(v, os)| ==> GroupFits(CutOperands(v, os)[i], CutGroups(v, os, groups)[i])
  {
    hide GroupFits;
    if os != [] {
      CutGroupsShaped(v, os[1..], groups[1..]);
    }
  }

  lemma {:induction false} NothingCut(s: OpSchema, v: Version, rs: seq<ResultSchema>)
    requires forall i :: 0 <= i < |rs| ==> rs[i].since == s.since
    ensures CutResults(s, v, rs) == rs
  {
    if rs != [] {
      NothingCut(s, v, rs[1..]);
    }
  }

  lemma {:induction false} CutOperandIsOne(v: Version, os: seq<OperandSchema>, i: nat) returns (j: nat)
    requires i < |CutOperands(v, os)|
    ensures j < |os| && os[j] == CutOperands(v, os)[i]
  {
    if OperandKept(v, os[0]) && i == 0 {
      j := 0;
    } else {
      var k := CutOperandIsOne(v, os[1..], if OperandKept(v, os[0]) then i - 1 else i);
      j := k + 1;
    }
  }

  /** Cutting leaves no variable operand that was not there before. */
  lemma {:induction false} VariableShrinks(s: OpSchema, v: Version)
    requires CutSchema(s, v).HasVariableOperands()
    ensures s.HasVariableOperands()
  {
    hide CutOperands;
    var i :| 0 <= i < |CutSchema(s, v).operands| && !CutSchema(s, v).operands[i].arity.One?;
    var j := CutOperandIsOne(v, s.operands, i);
  }

  /** Operands that are all required make one value each. */
  lemma {:induction false} OneEach(os: seq<OperandSchema>, groups: seq<seq<nat>>)
    requires |groups| == |os| && forall i :: 0 <= i < |os| ==> GroupFits(os[i], groups[i]) && os[i].arity.One?
    ensures |Tables.Concat(groups)| == |os|
  {
    if os != [] {
      OneEach(os[1..], groups[1..]);
    }
  }

  lemma {:induction false} CutHeadShaped(s: OpSchema, v: Version, h: Head, groups: seq<seq<nat>>)
    requires Shaped(s, h) && |groups| == |s.operands| && Grouped(s, h, groups)
    requires (s.HasVersionedResults() ==> !s.manyResults)
    ensures Shaped(CutSchema(s, v), CutHead(s, v, h, groups))
    ensures |CutGroups(v, s.operands, groups)| == |CutSchema(s, v).operands|
  {
    hide GroupFits;
    CutAttrsShaped(v, s.operands, s.attrs, h.attrs);
    CutGroupsShaped(v, s.operands, groups);
    if !s.segmented && !CutSchema(s, v).HasVariableOperands() {
      OneEach(CutOperands(v, s.operands), CutGroups(v, s.operands, groups));
    }
    if !s.HasVersionedResults() {
      NothingCut(s, v, s.results);
    }
  }

  // ---------------------------------------------------------------- results

  lemma {:induction false} KeptIsCut(s: OpSchema, v: Version, rs: seq<ResultSchema>, types: seq<Type>, used: seq<bool>)
    requires |types| == |rs| == |used| && Kept(s, v, rs, types, used).Some?
    ensures Kept(s, v, rs, types, used).value == CutList(s, v, rs, types)
  {
    if rs != [] {
      KeptIsCut(s, v, rs[1..], types[1..], used[1..]);
    }
  }

  lemma {:induction false} CutIsCompatible(s: OpSchema, v: Version, rs: seq<ResultSchema>)
    ensures forall i :: 0 <= i < |CutResults(s, v, rs)| ==> Compatible(s, v, CutResults(s, v, rs)[i])
  {
    if rs != [] {
      CutIsCompatible(s, v, rs[1..]);
    }
  }

  lemma {:induction false} AllKept(s: OpSchema, v: Version, rs: seq<ResultSchema>, types: seq<Type>, used: seq<bool>)
    requires |types| == |rs| == |used| && forall i :: 0 <= i < |rs| ==> Compatible(s, v, rs[i])
    ensures Kept(s, v, rs, types, used) == Some(types)
  {
    if rs != [] {
      AllKept(s, v, rs[1..], types[1..], used[1..]);
      assert [types[0]] + types[1..] == types;
    }
  }

  lemma {:induction false} SameWrittenResults(s: OpSchema, v: Version, h: Head, groups: seq<seq<nat>>, used: seq<bool>)
    requires Shaped(s, h) && |groups| == |s.operands| && Grouped(s, h, groups) && |used| == |h.results|
    requires (s.HasVersionedResults() ==> !s.manyResults)
    requires WrittenResults(s, v, h.results, used).Some?
    ensures |CutUsed(s, v, used)| == |CutHead(s, v, h, groups).results|
    ensures WrittenResults(CutSchema(s, v), v, CutHead(s, v, h, groups).results, CutUsed(s, v, used)) ==
            WrittenResults(s, v, h.results, used)
  {
    var c := CutSchema(s, v);
    if s.HasVersionedResults() {
      KeptIsCut(s, v, s.results, h.results, used);
      CutIsCompatible(s, v, s.results);
      if c.HasVersionedResults() {
        AllKept(c, v, c.results, CutHead(s, v, h, groups).results, CutUsed(s, v, used));
      }
    } else {
      NothingCut(s, v, s.results);
    }
  }

  // ---------------------------------------------------------------- flags

  function CutBools(fs: seq<Version>, present: seq<bool>, v: Version): (r: seq<bool>)
    requires |present| == |fs|
    ensures |r| == |Cut(fs, v)|
  {
    if fs == [] then []
    else CutBools(fs[..|fs| - 1], present[..|fs| - 1], v) + if v.AtLeast(fs[|fs| - 1]) then [present[|fs| - 1]] else []
  }

  lemma {:induction false} CutBoolsPosition(fs: seq<Version>, present: seq<bool>, v: Version, i: nat)
    requires |present| == |fs| && i < |fs| && v.AtLeast(fs[i])
    ensures |Cut(fs[..i], v)| < |Cut(fs, v)| && CutBools(fs, present, v)[|Cut(fs[..i], v)|] == present[i]
  {
    CutPosition(fs, v, i);
    var n := |fs| - 1;
    if i < n {
      assert fs[..n][..i] == fs[..i];
      CutBoolsPosition(fs[..n], present[..n], v, i);
    }
  }

  lemma {:induction false} CutGrows(fs: seq<Version>, v: Version, n: nat)
    requires n <= |fs|
    ensures |Cut(fs[..n], v)| <= |Cut(fs, v)|
    ensures n < |fs| ==> |Cut(fs[..n + 1], v)| == |Cut(fs[..n], v)| + if v.AtLeast(fs[n]) then 1 else 0
  {
    if n < |fs| {
      assert fs[..n + 1][..n] == fs[..n];
      CutGrows(fs[..|fs| - 1], v, n);
      assert fs[..|fs| - 1][..n] == fs[..n];
    } else {
      assert fs[..n] == fs;
    }
  }

  lemma {:induction false} SameFlagsUpTo(fs: seq<Version>, present: seq<bool>, v: Version, n: nat)
    requires |present| == |fs| && n <= |fs| && forall i :: 0 <= i < |fs| && present[i] ==> v.AtLeast(fs[i])
    ensures |Cut(fs[..n], v)| <= |Cut(fs, v)|
    ensures FlagsUpTo(Cut(fs, v), CutBools(fs, present, v), |Cut(fs[..n], v)|) == FlagsUpTo(fs, present, n)
  {
    hide BitOf, SetBit;
    CutGrows(fs, v, n);
    if n > 0 {
      SameFlagsUpTo(fs, present, v, n - 1);
      CutGrows(fs, v, n - 1);
      if v.AtLeast(fs[n - 1]) {
        CutBoolsPosition(fs, present, v, n - 1);
        CutMovesNoBit(fs, v, n - 1);
      }
    }
  }

  /** The word of the newer schema is the word of the cut one. */
  lemma {:induction false} SameFlags(fs: seq<Version>, present: seq<bool>, v: Version)
    requires |present| == |fs| && forall i :: 0 <= i < |fs| && present[i] ==> v.AtLeast(fs[i])
    ensures Flags(Cut(fs, v), CutBools(fs, present, v)) == Flags(fs, present)
  {
    assert fs[..|fs|] == fs;
    SameFlagsUpTo(fs, present, v, |fs|);
  }

  lemma {:induction false} CutOfSum(a: seq<Version>, b: seq<Version>, p: seq<bool>, q: seq<bool>, v: Version)
    requires |a| == |p| && |b| == |q|
    ensures Cut(a + b, v) == Cut(a, v) + Cut(b, v)
    ensures CutBools(a + b, p + q, v) == CutBools(a, p, v) + CutBools(b, q, v)
    decreases |b|
  {
    if b == [] {
      assert a + b == a && p + q == p;
    } else {
      var m := |b| - 1;
      assert (a + b)[..|a + b| - 1] == a + b[..m] && (p + q)[..|a + b| - 1] == p + q[..m];
      CutOfSum(a, b[..m], p, q[..m], v);
    }
  }

  lemma {:induction false} AttrVersionsCut(v: Version, os: seq<OperandSchema>, fs: seq<FieldSchema>,
                                           attrs: seq<Option<Attr>>)
    requires |attrs| == |fs|
    ensures |CutAttrs(v, fs, attrs)| == |CutFields(v, os, fs)|
    ensures AttrVersions(CutFields(v, os, fs)) == Cut(AttrVersions(fs), v)
    ensures AttrPresence(CutFields(v, os, fs), CutAttrs(v, fs, attrs)) == CutBools(AttrVersions(fs), AttrPresence(fs, attrs), v)
  {
    if fs != [] {
      AttrVersionsCut(v, os, fs[1..], attrs[1..]);
      var since, has := if fs[0].optional then [fs[0].since] else [], if fs[0].optional then [attrs[0].Some?] else [];
      hide Cut, CutBools, CutFields, CutAttrs;
      CutOfSum(since, AttrVersions(fs[1..]), has, AttrPresence(fs[1..], attrs[1..]), v);
      CutOfOne(fs[0].optional, fs[0].since, attrs[0].Some?, v);
      CutAttrsHead(v, os, fs, attrs);
    }
  }

  lemma {:induction false} CutOfOne(optional: bool, since: Version, has: bool, v: Version)
    ensures var fields, present := if optional then [since] else [], if optional then [has] else [];
            && Cut(fields, v) == (if optional && v.AtLeast(since) then [since] else [])
            && CutBools(fields, present, v) == if optional && v.AtLeast(since) then [has] else []
  {
    assert [since][..0] == [] && [has][..0] == [];
  }

  lemma {:induction false} CutAttrsHead(v: Version, os: seq<OperandSchema>, fs: seq<FieldSchema>, attrs: seq<Option<Attr>>)
    requires |attrs| == |fs| > 0 && |CutAttrs(v, fs[1..], attrs[1..])| == |CutFields(v, os, fs[1..])|
    ensures var has := if fs[0].optional && v.AtLeast(fs[0].since) then [attrs[0].Some?] else [];
            var since := if fs[0].optional && v.AtLeast(fs[0].since) then [fs[0].since] else [];
            && |CutAttrs(v, fs, attrs)| == |CutFields(v, os, fs)|
            && AttrVersions(CutFields(v, os, fs)) == since + AttrVersions(CutFields(v, os, fs[1..]))
            && AttrPresence(CutFields(v, os, fs), CutAttrs(v, fs, attrs)) ==
               has + AttrPresence(CutFields(v, os, fs[1..]), CutAttrs(v, fs[1..], attrs[1..]))
  {
    var cf, ca := CutFields(v, os, fs), CutAttrs(v, fs, attrs);
    if v.AtLeast(fs[0].since) {
      assert cf[1..] == CutFields(v, os, fs[1..]) && ca[1..] == CutAttrs(v, fs[1..], attrs[1..]);
    } else {
      assert cf == CutFields(v, os, fs[1..]) && ca == CutAttrs(v, fs[1..], attrs[1..]);
    }
  }

  lemma {:induction false} OperandVersionsCut(v: Version, os: seq<OperandSchema>, groups: seq<seq<nat>>)
    requires |groups| == |os|
    ensures |CutGroups(v, os, groups)| == |CutOperands(v, os)|
    ensures OperandVersions(CutOperands(v, os)) == Cut(OperandVersions(os), v)
    ensures OperandPresence(CutOperands(v, os), CutGroups(v, os, groups)) ==
            CutBools(OperandVersions(os), OperandPresence(os, groups), v)
  {
    if os != [] {
      OperandVersionsCut(v, os[1..], groups[1..]);
      var opt := os[0].arity.ZeroOrOne?;
      var since, has := if opt then [os[0].since] else [], if opt then [groups[0] != []] else [];
      hide Cut, CutBools, CutOperands, CutGroups;
      CutOfSum(since, OperandVersions(os[1..]), has, OperandPresence(os[1..], groups[1..]), v);
      CutOfOne(opt, os[0].since, groups[0] != [], v);
      CutGroupsHead(v, os, groups);
    }
  }

  lemma {:induction false} CutGroupsHead(v: Version, os: seq<OperandSchema>, groups: seq<seq<nat>>)
    requires |groups| == |os| > 0 && |CutGroups(v, os[1..], groups[1..])| == |CutOperands(v, os[1..])|
    ensures var has := if os[0].arity.ZeroOrOne? && v.AtLeast(os[0].since) then [groups[0] != []] else [];
            var since := if os[0].arity.ZeroOrOne? && v.AtLeast(os[0].since) then [os[0].since] else [];
            && |CutGroups(v, os, groups)| == |CutOperands(v, os)|
            && OperandVersions(CutOperands(v, os)) == since + OperandVersions(CutOperands(v, os[1..]))
            && OperandPresence(CutOperands(v, os), CutGroups(v, os, groups)) ==
               has + OperandPresence(CutOperands(v, os[1..]), CutGroups(v, os[1..], groups[1..]))
  {
    var co, cg := CutOperands(v, os), CutGroups(v, os, groups);
    if OperandKept(v, os[0]) {
      assert co[1..] == CutOperands(v, os[1..]) && cg[1..] == CutGroups(v, os[1..], groups[1..]);
    } else {
      assert co == CutOperands(v, os[1..]) && cg == CutGroups(v, os[1..], groups[1..]);
    }
  }

  lemma {:induction false} PresenceCut(s: OpSchema, v: Version, h: Head, groups: seq<seq<nat>>)
    requires Shaped(s, h) && |groups| == |s.operands| && Grouped(s, h, groups)
    requires Shaped(CutSchema(s, v), CutHead(s, v, h, groups))
    ensures CutSchema(s, v).OptionalFields() == Cut(s.OptionalFields(), v)
    ensures Presence(CutSchema(s, v), CutHead(s, v, h, groups)) == CutBools(s.OptionalFields(), Presence(s, h), v)
  {
    AttrVersionsCut(v, s.operands, s.attrs, h.attrs);
    if s.segmented {
      OperandVersionsCut(v, s.operands, groups);
      CutOfSum(AttrVersions(s.attrs), OperandVersions(s.operands), AttrPresence(s.attrs, h.attrs),
               OperandPresence(s.operands, h.operands), v);
    } else {
      assert AttrVersions(s.attrs) + [] == AttrVersions(s.attrs);
      assert AttrPresence(s.attrs, h.attrs) + [] == AttrPresence(s.attrs, h.attrs);
    }
  }

  lemma {:induction false} CutMembers(fs: seq<Version>, v: Version)
    ensures forall f :: f in Cut(fs, v) <==> f in fs && v.AtLeast(f)
  {
    if fs != [] {
      CutMembers(fs[..|fs| - 1], v);
      assert fs == fs[..|fs| - 1] + [fs[|fs| - 1]];
    }
  }

  lemma {:induction false} SameHasFlags(s: OpSchema, c: OpSchema, v: Version)
    requires c.OptionalFields() == Cut(s.OptionalFields(), v) && c.since == s.since && v.AtLeast(s.since)
    ensures c.HasFlags(v) <==> s.HasFlags(v)
  {
    hide OpSchema.OptionalFields, Cut;
    var fields, cut := s.OptionalFields(), c.OptionalFields();
    CutMembers(fields, v);
    if cut != [] {
      assert cut[0] in cut && Oldest(cut) in cut;
      assert IsOldest(fields, Oldest(fields));
    } else if fields != [] {
      assert Oldest(fields) !in cut;
    }
  }

  lemma {:induction false} SameWrittenFlags(s: OpSchema, v: Version, h: Head, groups: seq<seq<nat>>)
    requires Shaped(s, h) && |groups| == |s.operands| && Grouped(s, h, groups)
    requires Shaped(CutSchema(s, v), CutHead(s, v, h, groups)) && v.AtLeast(s.since)
    requires WriteFlags(s, v, Presence(s, h)).Some?
    ensures WriteFlags(CutSchema(s, v), v, Presence(CutSchema(s, v), CutHead(s, v, h, groups))) == WriteFlags(s, v, Presence(s, h))
  {
    hide Shaped, OpSchema.OptionalFields, OpSchema.HasFlags, Flags, Cut, CutBools, Presence;
    var c, fields, present := CutSchema(s, v), s.OptionalFields(), Presence(s, h);
    PresenceCut(s, v, h, groups);
    SameHasFlags(s, c, v);
    SameFlags(fields, present, v);
    CutMembers(fields, v);
    assert forall i :: 0 <= i < |c.OptionalFields()| ==> c.OptionalFields()[i] in Cut(fields, v);
  }

  // ---------------------------------------------------------------- attributes and operands

  /** Optional attributes of later versions are absent. */
  predicate NoneYounger(v: Version, fs: seq<FieldSchema>, attrs: seq<Option<Attr>>)
    requires |attrs| == |fs|
  {
    forall i :: 0 <= i < |fs| && fs[i].optional && attrs[i].Some? ==> v.AtLeast(fs[i].since)
  }

  lemma {:induction false} DatedAttrs(v: Version, fs: seq<FieldSchema>, attrs: seq<Option<Attr>>)
    requires |attrs| == |fs| && Dated(v, AttrVersions(fs), AttrPresence(fs, attrs))
    ensures NoneYounger(v, fs, attrs)
  {
    if fs != [] {
      FieldsTail(v, fs, attrs);
      DatedAttrs(v, fs[1..], attrs[1..]);
    }
  }

  /** Operands of later versions have no values. */
  predicate Absent(v: Version, os: seq<OperandSchema>, groups: seq<seq<nat>>)
    requires |groups| == |os|
  {
    forall i :: 0 <= i < |os| && !OperandKept(v, os[i]) ==> groups[i] == []
  }

  lemma {:induction false} DatedGroups(v: Version, os: seq<OperandSchema>, groups: seq<seq<nat>>)
    requires |groups| == |os| && GroupsFit(v, os, groups)
    requires forall i :: 0 <= i < |os| && !os[i].arity.ZeroOrOne? ==> OperandKept(v, os[i])
    ensures Absent(v, os, groups)
  {
    if os != [] {
      GroupsTail(v, os, groups);
      DatedGroups(v, os[1..], groups[1..]);
    }
  }

  lemma {:induction false} SameFields(env: Env, os: seq<OperandSchema>, fs: seq<FieldSchema>, attrs: seq<Option<Attr>>)
    requires |attrs| == |fs| && NoneYounger(env.version, fs, attrs) && WriteFields(env, fs, attrs).Some?
    requires |CutAttrs(env.version, fs, attrs)| == |CutFields(env.version, os, fs)|
    ensures WriteFields(env, CutFields(env.version, os, fs), CutAttrs(env.version, fs, attrs)) == WriteFields(env, fs, attrs)
  {
    hide Write;
    if fs != [] {
      var v := env.version;
      var cf, ca := CutFields(v, os, fs), CutAttrs(v, fs, attrs);
      assert NoneYounger(v, fs[1..], attrs[1..]) by { NoneYoungerTail(v, fs, attrs); }
      if v.AtLeast(fs[0].since) {
        assert cf[1..] == CutFields(v, os, fs[1..]) && ca[1..] == CutAttrs(v, fs[1..], attrs[1..]);
        SameFields(env, os, fs[1..], attrs[1..]);
      } else {
        assert cf == CutFields(v, os, fs[1..]) && ca == CutAttrs(v, fs[1..], attrs[1..]);
        SameFields(env, os, fs[1..], attrs[1..]);
        assert WriteField(env, fs[0], attrs[0]) == Some([]);
        assert [] + WriteFields(env, fs[1..], attrs[1..]).value == WriteFields(env, fs[1..], attrs[1..]).value;
      }
    }
  }

  lemma {:induction false} NoneYoungerTail(v: Version, fs: seq<FieldSchema>, attrs: seq<Option<Attr>>)
    requires |attrs| == |fs| > 0 && NoneYounger(v, fs, attrs)
    ensures NoneYounger(v, fs[1..], attrs[1..])
  {
    assert forall i :: 0 <= i < |fs[1..]| ==> fs[1..][i] == fs[i + 1] && attrs[1..][i] == attrs[i + 1];
  }

  lemma {:induction false} SameGroups(v: Version, os: seq<OperandSchema>, groups: seq<seq<nat>>)
    requires |groups| == |os| && WriteGroups(os, groups).Some? && Absent(v, os, groups)
    requires forall i :: 0 <= i < |os| && !os[i].arity.ZeroOrOne? ==> OperandKept(v, os[i])
    requires |CutGroups(v, os, groups)| == |CutOperands(v, os)|
    ensures WriteGroups(CutOperands(v, os), CutGroups(v, os, groups)) == WriteGroups(os, groups)
  {
    hide WriteGroup;
    if os != [] {
      var co, cg := CutOperands(v, os), CutGroups(v, os, groups);
      assert forall i :: 0 <= i < |os[1..]| ==> os[1..][i] == os[i + 1] && groups[1..][i] == groups[i + 1];
      if OperandKept(v, os[0]) {
        assert co[1..] == CutOperands(v, os[1..]) && cg[1..] == CutGroups(v, os[1..], groups[1..]);
        SameGroups(v, os[1..], groups[1..]);
      } else {
        assert co == CutOperands(v, os[1..]) && cg == CutGroups(v, os[1..], groups[1..]);
        SameGroups(v, os[1..], groups[1..]);
        NothingWritten();
        assert [] + WriteGroups(os[1..], groups[1..]).value == WriteGroups(os[1..], groups[1..]).value;
      }
    }
  }

  lemma {:induction false} NothingWritten()
    ensures WriteGroup([], false) == Some([])
  {
    assert WriteIndices([]) == Some([]);
    var nothing: bytes := [];
    assert nothing + nothing == nothing;
  }

  lemma {:induction false} SegmentsAlike(s: OpSchema, v: Version, h: Head, groups: seq<seq<nat>>)
    requires SchemaOk(s) && Shaped(s, h) && |groups| == |s.operands| && Grouped(s, h, groups)
    requires Shaped(CutSchema(s, v), CutHead(s, v, h, groups))
    requires s.segmented && v.AtLeast(s.since) && FieldsAllowed(s, v, Presence(s, h)) && WriteOperands(s, h.operands).Some?
    ensures Absent(v, s.operands, groups)
    ensures WriteOperands(CutSchema(s, v), CutHead(s, v, h, groups).operands) == WriteOperands(s, h.operands)
  {
    hide GroupFits, Dated, WriteGroups, WriteGroup, FieldsAllowed, FieldOk;
    PresenceSplits(s, v, h);
    assert GroupsFit(v, s.operands, h.operands);
    assert forall i :: 0 <= i < |s.operands| ==> RequiredIsOld(s, s.operands[i]);
    DatedGroups(v, s.operands, h.operands);
    SameGroups(v, s.operands, h.operands);
  }

  lemma {:induction false} IndicesSum(a: seq<nat>, b: seq<nat>)
    ensures WriteIndices(a + b).Some? <==> WriteIndices(a).Some? && WriteIndices(b).Some?
    ensures WriteIndices(a + b).Some? ==> WriteIndices(a + b).value == WriteIndices(a).value + WriteIndices(b).value
    ensures WriteIndices(a).Some? ==> |WriteIndices(a).value| >= |a|
  {
    hide VarInt;
    if a == [] {
      assert a + b == b;
    } else {
      assert (a + b)[1..] == a[1..] + b;
      IndicesSum(a[1..], b);
      if WriteIndices(a + b).Some? {
        Assoc(VarInt(a[0]), WriteIndices(a[1..]).value, WriteIndices(b).value);
      }
    }
  }

  /** Fewer values make fewer bytes, and the same values the same bytes. */
  predicate Shrinks(v: Version, os: seq<OperandSchema>, groups: seq<seq<nat>>)
    requires |groups| == |os|
  {
    var all, kept := Tables.Concat(groups), Tables.Concat(CutGroups(v, os, groups));
    && WriteIndices(all).Some? && WriteIndices(kept).Some? && |kept| <= |all|
    && |WriteIndices(kept).value| <= |WriteIndices(all).value|
    && (Absent(v, os, groups) ==> kept == all)
    && (!Absent(v, os, groups) ==> |WriteIndices(kept).value| < |WriteIndices(all).value|)
  }

  lemma {:induction false} IndicesShrink(v: Version, os: seq<OperandSchema>, groups: seq<seq<nat>>)
    requires |groups| == |os| && WriteIndices(Tables.Concat(groups)).Some?
    ensures Shrinks(v, os, groups)
  {
    hide WriteIndices, Shrinks;
    if os == [] {
      ShrinksEmpty(v, os, groups);
    } else {
      ConcatCut(v, os, groups);
      IndicesSum(groups[0], Tables.Concat(groups[1..]));
      IndicesShrink(v, os[1..], groups[1..]);
      ShrinksStep(v, os, groups);
    }
  }

  lemma {:induction false} ShrinksEmpty(v: Version, os: seq<OperandSchema>, groups: seq<seq<nat>>)
    requires |groups| == |os| == 0
    ensures Shrinks(v, os, groups)
  {
  }

  lemma {:induction false} ShrinksStep(v: Version, os: seq<OperandSchema>, groups: seq<seq<nat>>)
    requires |groups| == |os| > 0 && Shrinks(v, os[1..], groups[1..]) && WriteIndices(Tables.Concat(groups)).Some?
    ensures Shrinks(v, os, groups)
  {
    hide WriteIndices, OperandKept, Tables.Concat, CutGroups, Absent;
    var first, rest, kept := groups[0], Tables.Concat(groups[1..]), Tables.Concat(CutGroups(v, os[1..], groups[1..]));
    ConcatCut(v, os, groups);
    AbsentHead(v, os, groups);
    IndicesSum(first, rest);
    IndicesSum(first, kept);
    assert [] + kept == kept && [] + rest == rest;
  }

  lemma {:induction false} AbsentHead(v: Version, os: seq<OperandSchema>, groups: seq<seq<nat>>)
    requires |groups| == |os| > 0
    ensures Absent(v, os, groups) <==> (OperandKept(v, os[0]) || groups[0] == []) && Absent(v, os[1..], groups[1..])
  {
    hide OperandKept;
    if (OperandKept(v, os[0]) || groups[0] == []) && Absent(v, os[1..], groups[1..]) {
      forall i | 0 <= i < |os| && !OperandKept(v, os[i]) ensures groups[i] == [] {
        if i > 0 {
          assert os[1..][i - 1] == os[i] && groups[1..][i - 1] == groups[i];
        }
      }
    }
    assert forall i :: 0 <= i < |os[1..]| ==> os[1..][i] == os[i + 1] && groups[1..][i] == groups[i + 1];
  }

  lemma {:induction false} ConcatCut(v: Version, os: seq<OperandSchema>, groups: seq<seq<nat>>)
    requires |groups| == |os| > 0
    ensures Tables.Concat(groups) == groups[0] + Tables.Concat(groups[1..])
    ensures Tables.Concat(CutGroups(v, os, groups)) ==
            (if OperandKept(v, os[0]) then groups[0] else []) + Tables.Concat(CutGroups(v, os[1..], groups[1..]))
  {
    var rest := CutGroups(v, os[1..], groups[1..]);
    if OperandKept(v, os[0]) {
      assert ([groups[0]] + rest)[1..] == rest;
    } else {
      assert [] + rest == rest;
      assert [] + Tables.Concat(rest) == Tables.Concat(rest);
    }
  }

  lemma {:induction false} VarIntGrows(a: nat, b: nat)
    requires a <= b
    ensures |VarInt(a)| <= |VarInt(b)|
  {
    VarIntLength(b, |VarInt(b)|);
    VarIntLength(a, |VarInt(b)|);
  }

  /** The number of operands is written by both schemas or by neither. */
  predicate SizesAlike(s: OpSchema, v: Version) {
    s.segmented || (s.HasVariableOperands() <==> CutSchema(s, v).HasVariableOperands())
  }

  function SizeIf(c: bool, n: nat): bytes {
    if c then VarInt(n) else []
  }

  lemma {:induction false} FlatGroup(s: OpSchema, group: seq<nat>)
    requires !s.segmented && (s.HasVariableOperands() || |group| == |s.operands|)
    ensures WriteOperands(s, [group]) == WriteGroup(group, s.HasVariableOperands())
  {
    if s.operands == [] {
      NothingWritten();
    }
  }

  /** Without segments: what the cut schema writes of the operands. */
  lemma {:induction false} FlatOperands(s: OpSchema, v: Version, h: Head, groups: seq<seq<nat>>)
    requires Shaped(s, h) && |groups| == |s.operands| && Grouped(s, h, groups)
    requires Shaped(CutSchema(s, v), CutHead(s, v, h, groups))
    requires !s.segmented && WriteOperands(s, h.operands).Some?
    ensures var written, cut := WriteOperands(s, h.operands), WriteOperands(CutSchema(s, v), CutHead(s, v, h, groups).operands);
            && cut.Some? && |cut.value| <= |written.value|
            && (Absent(v, s.operands, groups) ==> written.value == SizeIf(!SizesAlike(s, v), |h.operands[0]|) + cut.value)
            && (!(Absent(v, s.operands, groups) && SizesAlike(s, v)) ==> |cut.value| < |written.value|)
  {
    hide VarInt, WriteIndices, Absent, OpSchema.HasVariableOperands, CutOperands, CutGroups;
    var c, all, kept := CutSchema(s, v), Tables.Concat(groups), Tables.Concat(CutGroups(v, s.operands, groups));
    FlatGroup(s, all);
    FlatGroup(c, kept);
    IndicesShrink(v, s.operands, groups);
    VarIntGrows(|kept|, |all|);
    if c.HasVariableOperands() {
      VariableShrinks(s, v);
    }
    var body := WriteIndices(kept).value;
    assert [] + body == body;
    assert [] + (VarInt(|kept|) + body) == VarInt(|kept|) + body;
  }

  // ---------------------------------------------------------------- the main results

  /** All parts but the count of the results and the size of unsegmented operands are written alike. */
  lemma {:induction false} SameParts(env: Env, s: OpSchema, h: Head, groups: seq<seq<nat>>, used: seq<bool>)
    requires SchemaOk(s) && Shaped(s, h) && |groups| == |s.operands| && Grouped(s, h, groups)
    requires |used| == |h.results| && env.version.AtLeast(s.since)
    requires WriteHead(env, s, h, used).Some?
    ensures var v, c, ch := env.version, CutSchema(s, env.version), CutHead(s, env.version, h, groups);
            && Shaped(c, ch) && |CutUsed(s, v, used)| == |ch.results| && |h.attrs| == |s.attrs| && |ch.attrs| == |c.attrs|
            && WrittenResults(c, v, ch.results, CutUsed(s, v, used)) == WrittenResults(s, v, h.results, used)
            && WriteFlags(c, v, Presence(c, ch)) == WriteFlags(s, v, Presence(s, h))
            && WriteFields(env, c.attrs, ch.attrs) == WriteFields(env, s.attrs, h.attrs)
  {
    hide Write, WriteTypes, WrittenResults, WriteFlags, WriteFields, WriteOperands, Shaped, Grouped, Presence,
         CutUsed, Kept;
    var v := env.version;
    assert s.HasVersionedResults() ==> !s.manyResults;
    CutHeadShaped(s, v, h, groups);
    SameWrittenResults(s, v, h, groups, used);
    SameWrittenFlags(s, v, h, groups);
    FieldsWrittenAlike(env, s, h, groups);
  }

  /** The operands an unsegmented operation has from later versions have no values. */
  predicate NoneLater(s: OpSchema, v: Version, groups: seq<seq<nat>>)
    requires |groups| == |s.operands|
  {
    s.segmented || Absent(v, s.operands, groups)
  }

  /** The operands of the two schemas: the same bytes, or more of the newer one. */
  lemma {:induction false} OperandsCompared(env: Env, s: OpSchema, h: Head, groups: seq<seq<nat>>, used: seq<bool>)
    requires SchemaOk(s) && Shaped(s, h) && |groups| == |s.operands| && Grouped(s, h, groups)
    requires |used| == |h.results| && env.version.AtLeast(s.since) && WriteHead(env, s, h, used).Some?
    requires Shaped(CutSchema(s, env.version), CutHead(s, env.version, h, groups))
    ensures var v, c, ch := env.version, CutSchema(s, env.version), CutHead(s, env.version, h, groups);
            var written, cut := WriteOperands(s, h.operands), WriteOperands(c, ch.operands);
            && written.Some? && cut.Some? && |cut.value| <= |written.value|
            && (NoneLater(s, v, groups) && SizesAlike(s, v) ==> written == cut)
            && (!(NoneLater(s, v, groups) && SizesAlike(s, v)) ==> |cut.value| < |written.value|)
  {
    hide Write, WriteTypes, WriteResults, WriteFields, WriteOperands, Shaped, Presence, CutUsed, Absent,
         FieldsAllowed, Flags;
    var v := env.version;
    if s.segmented {
      SegmentsAlike(s, v, h, groups);
    } else {
      FlatOperands(s, v, h, groups);
      assert [] + WriteOperands(CutSchema(s, v), CutHead(s, v, h, groups).operands).value ==
             WriteOperands(CutSchema(s, v), CutHead(s, v, h, groups).operands).value;
    }
  }

  /** Cutting leaves no variadic operand that was not there before. */
  lemma {:induction false} CountShrinks(s: OpSchema, v: Version)
    requires CutSchema(s, v).CountsResults()
    ensures s.CountsResults()
  {
    hide CutOperands, OpSchema.HasVariableOperands;
    if CutSchema(s, v).HasVariadicOperands() {
      var i :| 0 <= i < |CutSchema(s, v).operands| && CutSchema(s, v).operands[i].arity.Many?;
      var j := CutOperandIsOne(v, s.operands, i);
    }
  }

  lemma {:induction false} ResultsCompared(env: Env, s: OpSchema, c: OpSchema, types: seq<Type>, types': seq<Type>,
                                           used: seq<bool>, used': seq<bool>)
    requires |used| == |types| && |used'| == |types'| && (c.CountsResults() ==> s.CountsResults())
    requires WrittenResults(c, env.version, types', used') == WrittenResults(s, env.version, types, used)
    requires WriteResults(env, s, types, used).Some?
    ensures WriteResults(env, c, types', used').Some? && WrittenResults(s, env.version, types, used).Some?
    ensures WriteResults(env, s, types, used).value ==
            SizeIf(s.CountsResults() && !c.CountsResults(), |WrittenResults(s, env.version, types, used).value|) +
            WriteResults(env, c, types', used').value
    ensures s.CountsResults() ==> |WrittenResults(s, env.version, types, used).value| < TWO_TO_THE_64
  {
    hide WriteTypes, WrittenResults, OpSchema.CountsResults, VarInt;
    var body := WriteTypes(env, WrittenResults(s, env.version, types, used).value).value;
    assert [] + body == body;
    assert c.CountsResults() ==> [] + WriteResults(env, c, types', used').value == WriteResults(env, c, types', used').value;
  }

  /** Results, flags and attributes, operands: the bytes of a head. */
  function HeadBytesOf(results: bytes, middle: bytes, operands: bytes): bytes {
    results + (middle + operands)
  }

  predicate PartsOf(env: Env, s: OpSchema, h: Head, used: seq<bool>, results: bytes, middle: bytes, operands: bytes)
    requires Shaped(s, h) && |used| == |h.results|
  {
    && WriteResults(env, s, h.results, used) == Some(results)
    && WriteFlags(s, env.version, Presence(s, h)).Some? && WriteFields(env, s.attrs, h.attrs).Some?
    && middle == WriteFlags(s, env.version, Presence(s, h)).value + WriteFields(env, s.attrs, h.attrs).value
    && WriteOperands(s, h.operands) == Some(operands)
  }

  lemma {:induction false} PartsMake(env: Env, s: OpSchema, h: Head, used: seq<bool>, results: bytes, middle: bytes,
                                     operands: bytes)
    requires Shaped(s, h) && |used| == |h.results| && PartsOf(env, s, h, used, results, middle, operands)
    ensures WriteHead(env, s, h, used) == Some(HeadBytesOf(results, middle, operands))
  {
    hide WriteResults, WriteFlags, WriteFields, WriteOperands, Presence;
    Assoc(WriteFlags(s, env.version, Presence(s, h)).value, WriteFields(env, s.attrs, h.attrs).value, operands);
  }

  /**
    What a newer writer puts into a file of an older version beyond what that version's own
    writer does: the number of results, if only the newer schema counts them, and whatever
    it writes for the operands.
    */
  predicate Moved(env: Env, s: OpSchema, h: Head, groups: seq<seq<nat>>, used: seq<bool>, results: bytes,
                  middle: bytes, operands: bytes)
    requires Shaped(s, h) && |groups| == |s.operands| && |used| == |h.results| && WriteHead(env, s, h, used).Some?
  {
    var v, c, ch := env.version, CutSchema(s, env.version), CutHead(s, env.version, h, groups);
    && Shaped(c, ch) && |CutUsed(s, v, used)| == |ch.results|
    && PartsOf(env, c, ch, CutUsed(s, v, used), results, middle, operands)
    && WriteOperands(s, h.operands).Some?
    && WriteHead(env, s, h, used).value ==
       HeadBytesOf(SizeIf(!CountsAlike(s, v), |ch.results|) + results, middle, WriteOperands(s, h.operands).value)
    && (NoneLater(s, v, groups) && SizesAlike(s, v) ==> WriteOperands(s, h.operands).value == operands)
    && (!WrittenAlike(s, v, groups) ==> |HeadBytesOf(results, middle, operands)| < |WriteHead(env, s, h, used).value|)
    && (!CountsAlike(s, v) ==> |ch.results| < TWO_TO_THE_64)
  }

  lemma {:induction false} WhatMoves(env: Env, s: OpSchema, h: Head, groups: seq<seq<nat>>, used: seq<bool>)
    returns (results: bytes, middle: bytes, operands: bytes)
    requires SchemaOk(s) && Shaped(s, h) && |groups| == |s.operands| && Grouped(s, h, groups)
    requires |used| == |h.results| && env.version.AtLeast(s.since) && WriteHead(env, s, h, used).Some?
    ensures Moved(env, s, h, groups, used, results, middle, operands)
  {
    hide WriteResults, WrittenResults, WriteFlags, WriteFields, WriteOperands, Shaped, Grouped, Presence, CutUsed,
         CutHead, CutSchema, OpSchema.CountsResults, NoneLater, SizesAlike, VarInt;
    var v, c, ch := env.version, CutSchema(s, env.version), CutHead(s, env.version, h, groups);
    SameParts(env, s, h, groups, used);
    OperandsCompared(env, s, h, groups, used);
    if c.CountsResults() {
      CountShrinks(s, v);
    }
    ResultsCompared(env, s, c, h.results, ch.results, used, CutUsed(s, v, used));
    CutResultsWritten(env, s, h, groups, used);
    results := WriteResults(env, c, ch.results, CutUsed(s, v, used)).value;
    var flags, attrs := WriteFlags(s, v, Presence(s, h)).value, WriteFields(env, s.attrs, h.attrs).value;
    middle, operands := flags + attrs, WriteOperands(c, ch.operands).value;
    Assoc(flags, attrs, WriteOperands(s, h.operands).value);
    if !CountsAlike(s, v) {
      VarIntLong(|ch.results|);
    }
  }

  lemma {:induction false} VarIntLong(n: nat)
    ensures |VarInt(n)| >= 1
  {
  }

  /** The cut operation keeps all its results. */
  lemma {:induction false} CutResultsWritten(env: Env, s: OpSchema, h: Head, groups: seq<seq<nat>>, used: seq<bool>)
    requires SchemaOk(s) && Shaped(s, h) && |groups| == |s.operands| && Grouped(s, h, groups)
    requires |used| == |h.results|
    requires WrittenResults(s, env.version, h.results, used).Some?
    ensures WrittenResults(s, env.version, h.results, used).value == CutHead(s, env.version, h, groups).results
  {
    if s.HasVersionedResults() {
      KeptIsCut(s, env.version, s.results, h.results, used);
    }
  }

  /** When the newer writer's bytes are the older one's: the three conditions. */
  predicate WrittenAlike(s: OpSchema, v: Version, groups: seq<seq<nat>>)
    requires |groups| == |s.operands|
  {
    CountsAlike(s, v) && SizesAlike(s, v) && NoneLater(s, v, groups)
  }

  /**
    A writer that knows later fields writes what a writer of version `v` would have written,
    if and only if the results are counted alike, the operands are counted alike, and no
    later operand without a flag has a value.
    */
  lemma {:induction false} SameBytes(env: Env, s: OpSchema, h: Head, groups: seq<seq<nat>>, used: seq<bool>)
    requires SchemaOk(s) && Shaped(s, h) && |groups| == |s.operands| && Grouped(s, h, groups)
    requires |used| == |h.results| && env.version.AtLeast(s.since) && WriteHead(env, s, h, used).Some?
    ensures var c, ch := CutSchema(s, env.version), CutHead(s, env.version, h, groups);
            && Shaped(c, ch) && |CutUsed(s, env.version, used)| == |ch.results|
            && (WriteHead(env, c, ch, CutUsed(s, env.version, used)) == WriteHead(env, s, h, used) <==>
                WrittenAlike(s, env.version, groups))
  {
    hide WriteHead, Shaped, Grouped, CutUsed, CutHead, CutSchema, CountsAlike, SizesAlike, NoneLater, PartsOf,
         WriteOperands;
    var v := env.version;
    var results, middle, operands := WhatMoves(env, s, h, groups, used);
    PartsMake(env, CutSchema(s, v), CutHead(s, v, h, groups), CutUsed(s, v, used), results, middle, operands);
    assert [] + results == results;
  }

  /** With segments every condition holds: the generator refuses later operands that are not optional. */
  lemma {:induction false} SegmentsMoveNothing(s: OpSchema, v: Version, groups: seq<seq<nat>>)
    requires SchemaOk(s) && s.segmented && v.AtLeast(s.since) && |groups| == |s.operands|
    ensures WrittenAlike(s, v, groups)
  {
    hide CutOperands, FieldOk;
    if s.HasVariadicOperands() {
      var i :| 0 <= i < |s.operands| && s.operands[i].arity.Many?;
      assert RequiredIsOld(s, s.operands[i]);
      CutOperandPosition(v, s.operands, i);
    }
    if CutSchema(s, v).CountsResults() {
      CountShrinks(s, v);
    }
  }

  // ---------------------------------------------------------------- what an older reader makes of the rest

  /**
    Where only the newer schema counts the results, the count stands in front of everything
    else. A reader of the older schema takes it for the first result type, each type for the
    next one, and leaves the last type to be read as what follows the results.
    */
  lemma {:induction false} CountMovesEverything(w: Env, r: Env, s: OpSchema, h: Head, groups: seq<seq<nat>>,
                                                used: seq<bool>, rest: bytes)
    requires Linked(w, r) && SchemaOk(s) && Shaped(s, h) && |groups| == |s.operands| && Grouped(s, h, groups)
    requires |used| == |h.results| && w.version.AtLeast(s.since) && WriteHead(w, s, h, used).Some?
    requires !CountsAlike(s, w.version)
    ensures var c, ch := CutSchema(s, w.version), CutHead(s, w.version, h, groups);
            var n, newer := |ch.results|, WriteHead(w, s, h, used).value;
            && Shaped(c, ch) && |CutUsed(s, w.version, used)| == n && WriteHead(w, c, ch, CutUsed(s, w.version, used)).Some?
            && WriteTypes(w, ch.results).Some? && VarInt(n) + WriteTypes(w, ch.results).value <= newer
            && ReadResults(r, c, newer + rest) ==
               OneOff(w, r, ch.results, newer[|VarInt(n) + WriteTypes(w, ch.results).value|..] + rest)
            && (SizesAlike(s, w.version) && NoneLater(s, w.version, groups) ==>
                  newer == VarInt(n) + WriteHead(w, c, ch, CutUsed(s, w.version, used)).value)
  {
    hide WriteHead, ReadHead, ReadResults, Shaped, Grouped, CutUsed, CutHead, CutSchema, CountsAlike, SizesAlike,
         NoneLater, VarInt, SchemaOk, PartsOf, OneOff, Linked, WriteTypes, WriteOperands;
    var v, c, ch := w.version, CutSchema(s, w.version), CutHead(s, w.version, h, groups);
    var results, middle, operands := WhatMoves(w, s, h, groups, used);
    PartsMake(w, c, ch, CutUsed(s, v, used), results, middle, operands);
    UncountedResults(s, v, h, groups, used);
    UncountedBytes(w, c, ch, CutUsed(s, v, used), results, middle, operands);
    var written, count := WriteOperands(s, h.operands).value, VarInt(|ch.results|);
    Assoc(count, results, middle + written);
    CountFirst(count, results, middle + written, rest);
    SameTables(w, r);
    CountTakenForType(w, r, c, ch.results, middle + written + rest);
  }

  lemma {:induction false} CountFirst(count: bytes, results: bytes, behind: bytes, rest: bytes)
    ensures var newer := count + results + behind;
            count + results <= newer && newer[|count + results|..] == behind &&
            newer + rest == count + (results + (behind + rest))
  {
    Assoc(count + results, behind, rest);
    Assoc(count, results, behind + rest);
  }

  lemma {:induction false} SameTables(w: Env, r: Env)
    requires Linked(w, r)
    ensures KnowsMore(w, r) && r.version == w.version
  {
  }

  /** Reading `n` types where their number comes first; `after` follows the types. */
  function OneOff(w: Env, r: Env, types: seq<Type>, after: bytes): Parsed<seq<Type>>
    requires WriteTypes(w, types).Some?
  {
    var n := |types|;
    if n == 0 then Got([], VarInt(n) + after)
    else if n >= |r.types| then Fail
    else if r.types[n].None? then Missing(n)
    else if WriteTypes(w, types[n - 1..]).None? then Fail
    else Got([r.types[n].value] + types[..n - 1], WriteTypes(w, types[n - 1..]).value + after)
  }

  lemma {:induction false} UncountedResults(s: OpSchema, v: Version, h: Head, groups: seq<seq<nat>>, used: seq<bool>)
    requires Shaped(s, h) && |groups| == |s.operands| && Grouped(s, h, groups) && !CountsAlike(s, v)
    requires |used| == |h.results|
    requires Shaped(CutSchema(s, v), CutHead(s, v, h, groups))
    ensures var c := CutSchema(s, v);
            && !c.CountsResults() && |CutHead(s, v, h, groups).results| == |c.results|
            && (forall i :: 0 <= i < |c.results| ==> Compatible(c, v, c.results[i]))
  {
    hide OpSchema.CountsResults;
    var c := CutSchema(s, v);
    if c.CountsResults() {
      CountShrinks(s, v);
    }
    CutIsCompatible(s, v, s.results);
    assert !c.manyResults by {
      Uncounted(c);
    }
  }

  lemma {:induction false} Uncounted(c: OpSchema)
    requires !c.CountsResults()
    ensures !c.manyResults
  {
  }

  lemma {:induction false} UncountedBytes(env: Env, c: OpSchema, ch: Head, used: seq<bool>, results: bytes,
                                          middle: bytes, operands: bytes)
    requires Shaped(c, ch) && |used| == |ch.results| && PartsOf(env, c, ch, used, results, middle, operands)
    requires !c.CountsResults() && |ch.results| == |c.results|
    requires forall i :: 0 <= i < |c.results| ==> Compatible(c, env.version, c.results[i])
    ensures WriteTypes(env, ch.results) == Some(results)
  {
    hide WriteTypes, WriteFlags, WriteFields, WriteOperands, Presence, OpSchema.CountsResults, Compatible;
    if c.HasVersionedResults() {
      AllKept(c, env.version, c.results, ch.results, used);
    }
    if WriteTypes(env, ch.results).Some? {
      assert [] + WriteTypes(env, ch.results).value == WriteTypes(env, ch.results).value;
    }
  }

  /** Where a version has all results, they are read one after the other. */
  lemma {:induction false} KeptAreTypes(r: Env, c: OpSchema, rs: seq<ResultSchema>, bs: bytes)
    requires forall i :: 0 <= i < |rs| ==> Compatible(c, r.version, rs[i])
    ensures ReadKept(r, c, rs, bs) == ReadTypes(r, |rs|, bs)
    decreases |rs|
  {
    hide Compatible, ReadType;
    if rs != [] {
      assert Compatible(c, r.version, rs[0]);
      var head := ReadType(bs, r.types);
      if head.Got? {
        KeptAreTypes(r, c, rs[1..], head.rest);
      }
    }
  }

  lemma {:induction false} CountTakenForType(w: Env, r: Env, c: OpSchema, types: seq<Type>, after: bytes)
    requires KnowsMore(w, r) && WriteTypes(w, types).Some? && |types| == |c.results| < TWO_TO_THE_64
    requires !c.CountsResults() && forall i :: 0 <= i < |c.results| ==> Compatible(c, r.version, c.results[i])
    ensures ReadResults(r, c, VarInt(|types|) + (WriteTypes(w, types).value + after)) == OneOff(w, r, types, after)
  {
    hide VarInt, WriteTypes, ReadTypes, KnowsMore, Compatible, OneOff;
    var n, bs := |types|, VarInt(|types|) + (WriteTypes(w, types).value + after);
    KeptAreTypes(r, c, c.results, bs);
    TypesOneOff(w, r, types, after);
  }

  lemma {:induction false} TypesOneOff(w: Env, r: Env, types: seq<Type>, after: bytes)
    requires KnowsMore(w, r) && WriteTypes(w, types).Some? && |types| < TWO_TO_THE_64
    ensures ReadTypes(r, |types|, VarInt(|types|) + (WriteTypes(w, types).value + after)) == OneOff(w, r, types, after)
  {
    hide VarInt, KnowsMore, ReadVarInt;
    var n, bs := |types|, WriteTypes(w, types).value + after;
    VarIntRoundTrip(n, bs);
    if n == 0 {
      assert [] + after == after;
    } else {
      TypesSum(w, types[..n - 1], types[n - 1..]);
      assert types == types[..n - 1] + types[n - 1..];
      var init, last := WriteTypes(w, types[..n - 1]).value, WriteTypes(w, types[n - 1..]).value;
      Assoc(init, last, after);
      TypesRoundTrip(w, r, types[..n - 1], last + after);
    }
  }

  lemma {:induction false} TypesSum(env: Env, a: seq<Type>, b: seq<Type>)
    ensures WriteTypes(env, a + b).Some? <==> WriteTypes(env, a).Some? && WriteTypes(env, b).Some?
    ensures WriteTypes(env, a + b).Some? ==> WriteTypes(env, a + b).value == WriteTypes(env, a).value + WriteTypes(env, b).value
  {
    hide Index;
    if a == [] {
      assert a + b == b;
      assert WriteTypes(env, b).Some? ==> [] + WriteTypes(env, b).value == WriteTypes(env, b).value;
    } else {
      assert (a + b)[1..] == a[1..] + b;
      TypesSum(env, a[1..], b);
      if WriteTypes(env, a + b).Some? {
        Assoc(Index(env.types, Some(a[0])).value, WriteTypes(env, a[1..]).value, WriteTypes(env, b).value);
      }
    }
  }

  // ---------------------------------------------------------------- operands without segments

  /** The numbers a newer writer writes for its operands: their count, if it has one, and the indices. */
  function Numbers(s: OpSchema, all: seq<nat>): seq<nat> {
    (if s.HasVariableOperands() then [|all|] else []) + all
  }

  /** Where it expects no count, the older reader takes as many numbers as it has operands. */
  predicate Enough(c: OpSchema, all: seq<nat>) {
    c.HasVariableOperands() || |c.operands| <= |all|
  }

  /** The operands an older reader takes. */
  function Taken(s: OpSchema, c: OpSchema, all: seq<nat>): seq<nat>
    requires Enough(c, all)
  {
    if c.HasVariableOperands() then all else Numbers(s, all)[..|c.operands|]
  }

  /** The numbers it leaves to the next operation. */
  function Left(s: OpSchema, c: OpSchema, all: seq<nat>): seq<nat>
    requires Enough(c, all)
  {
    if c.HasVariableOperands() then [] else Numbers(s, all)[|c.operands|..]
  }

  lemma {:induction false} OneIndex(n: nat)
    ensures WriteIndices([n]) == Count(n)
  {
    if n < TWO_TO_THE_64 {
      assert VarInt(n) + [] == VarInt(n);
    }
  }

  lemma {:induction false} NumbersWritten(s: OpSchema, all: seq<nat>)
    requires WriteGroup(all, s.HasVariableOperands()).Some?
    ensures WriteIndices(Numbers(s, all)) == WriteGroup(all, s.HasVariableOperands())
  {
    hide VarInt, OpSchema.HasVariableOperands;
    IndicesSum([|all|], all);
    OneIndex(|all|);
    assert [] + all == all && [] + WriteIndices(all).value == WriteIndices(all).value;
  }

  /** The same bytes, split as the older schema does. */
  lemma {:induction false} OperandsSplit(s: OpSchema, v: Version, h: Head, groups: seq<seq<nat>>)
    requires Shaped(s, h) && |groups| == |s.operands| && Grouped(s, h, groups) && !s.segmented
    requires Shaped(CutSchema(s, v), CutHead(s, v, h, groups)) && WriteOperands(s, h.operands).Some?
    ensures |h.operands| == 1 && Enough(CutSchema(s, v), h.operands[0])
    ensures var c, all := CutSchema(s, v), h.operands[0];
            && !c.segmented && (c.HasVariableOperands() || |Taken(s, c, all)| == |c.operands|)
            && WriteOperands(c, [Taken(s, c, all)]).Some? && WriteIndices(Left(s, c, all)).Some?
            && WriteOperands(s, h.operands).value == WriteOperands(c, [Taken(s, c, all)]).value + WriteIndices(Left(s, c, all)).value
  {
    hide VarInt, WriteIndices, Absent, OpSchema.HasVariableOperands, CutOperands, CutGroups;
    var c, all, kept := CutSchema(s, v), Tables.Concat(groups), Tables.Concat(CutGroups(v, s.operands, groups));
    FlatGroup(s, all);
    if c.HasVariableOperands() {
      VariableShrinks(s, v);
      FlatGroup(c, all);
      NoIndices();
      assert WriteOperands(c, [all]).value + [] == WriteOperands(c, [all]).value;
    } else {
      IndicesShrink(v, s.operands, groups);
      NumbersWritten(s, all);
      var numbers, k := Numbers(s, all), |c.operands|;
      IndicesSum(numbers[..k], numbers[k..]);
      assert numbers == numbers[..k] + numbers[k..];
      FlatGroup(c, numbers[..k]);
      NoSize(numbers[..k]);
    }
  }

  lemma {:induction false} NoIndices()
    ensures WriteIndices([]) == Some([])
  {
  }

  lemma {:induction false} NoSize(group: seq<nat>)
    ensures WriteGroup(group, false) == WriteIndices(group)
  {
    if WriteIndices(group).Some? {
      assert [] + WriteIndices(group).value == WriteIndices(group).value;
    }
  }

  lemma {:induction false} TakenHead(env: Env, c: OpSchema, ch: Head, used: seq<bool>, results: bytes, middle: bytes,
                                     operands: bytes, taken: seq<nat>)
    returns (head: Head)
    requires Shaped(c, ch) && |used| == |ch.results| && !c.segmented
    requires (c.HasVariableOperands() || |taken| == |c.operands|) && WriteOperands(c, [taken]).Some?
    requires PartsOf(env, c, ch, used, results, middle, operands)
    ensures head == ch.(operands := [taken]) && Shaped(c, head)
    ensures WriteHead(env, c, head, used) == Some(HeadBytesOf(results, middle, WriteOperands(c, [taken]).value))
  {
    hide OpSchema.HasVariableOperands, WriteResults, WriteFlags, WriteFields, HeadBytesOf, WriteHead, WriteOperands;
    head := ch.(operands := [taken]);
    PartsMake(env, c, head, used, results, middle, WriteOperands(c, [taken]).value);
  }

  /**
    Without segments and with results counted alike, a reader of the older schema makes of
    any operand list the newer writer wrote, its count and later operands included: it takes
    the list if it expects a count as well, and otherwise as many numbers as it has operands,
    the count among them, and leaves the others to be read as the next operation.
    */
  lemma {:induction false} OperandsMove(w: Env, r: Env, s: OpSchema, h: Head, groups: seq<seq<nat>>, used: seq<bool>,
                                        limit: nat, rest: bytes)
    requires Linked(w, r) && SchemaOk(s) && Shaped(s, h) && |groups| == |s.operands| && Grouped(s, h, groups)
    requires |used| == |h.results| && w.version.AtLeast(s.since) && WriteHead(w, s, h, used).Some?
    requires !s.segmented && CountsAlike(s, w.version)
    ensures var c, ch := CutSchema(s, w.version), CutHead(s, w.version, h, groups);
            && Shaped(c, ch) && |h.operands| == 1 && Enough(c, h.operands[0])
            && var taken, left := ch.(operands := [Taken(s, c, h.operands[0])]), WriteIndices(Left(s, c, h.operands[0]));
            && Shaped(c, taken) && left.Some?
            && ReadHead(r, c, limit, WriteHead(w, s, h, used).value + rest) ==
               if ReadableHead(w, c, taken, limit) then Got(taken, left.value + rest) else Fail
  {
    hide WriteHead, ReadHead, ReadableHead, ReadResults, Shaped, Grouped, CutUsed, CutHead, CutSchema, CountsAlike,
         SizesAlike, NoneLater, SchemaOk, PartsOf, Linked, WriteIndices, WriteOperands, HeadBytesOf, Taken, Left,
         OpSchema.HasVariableOperands, Enough;
    var v, c, ch := w.version, CutSchema(s, w.version), CutHead(s, w.version, h, groups);
    var results, middle, operands := WhatMoves(w, s, h, groups, used);
    OperandsSplit(s, v, h, groups);
    var taken, left := Taken(s, c, h.operands[0]), WriteIndices(Left(s, c, h.operands[0])).value;
    var head := TakenHead(w, c, ch, CutUsed(s, v, used), results, middle, operands, taken);
    CutSchemaOk(s, v);
    HeadRoundTrip(w, r, c, head, CutUsed(s, v, used), limit, left + rest);
    CutIsDated(s, v);
    NothingRestored(c, v, head);
    SameStream(results, middle, WriteOperands(c, [taken]).value, left, rest);
  }

  lemma {:induction false} SameStream(results: bytes, middle: bytes, taken: bytes, left: bytes, rest: bytes)
    ensures HeadBytesOf([] + results, middle, taken + left) + rest == HeadBytesOf(results, middle, taken) + (left + rest)
  {
    assert [] + results == results;
    Assoc(taken, left, rest);
    Assoc(middle, taken + left, rest);
    Assoc(middle, taken, left + rest);
    Assoc(results, middle + (taken + left), rest);
    Assoc(results, middle + taken, left + rest);
  }

  /** All that the cut schema has belongs to its version. */
  lemma {:induction false} CutIsDated(s: OpSchema, v: Version)
    ensures forall i :: 0 <= i < |CutSchema(s, v).attrs| ==> v.AtLeast(CutSchema(s, v).attrs[i].since)
    ensures forall i :: 0 <= i < |CutSchema(s, v).results| ==> Compatible(CutSchema(s, v), v, CutSchema(s, v).results[i])
  {
    CutFieldsDated(v, s.operands, s.attrs);
    CutIsCompatible(s, v, s.results);
  }

  lemma {:induction false} FieldsWrittenAlike(env: Env, s: OpSchema, h: Head, groups: seq<seq<nat>>)
    requires Shaped(s, h) && |groups| == |s.operands| && Grouped(s, h, groups) && env.version.AtLeast(s.since)
    requires Shaped(CutSchema(s, env.version), CutHead(s, env.version, h, groups))
    requires WriteFlags(s, env.version, Presence(s, h)).Some? && WriteFields(env, s.attrs, h.attrs).Some?
    ensures |h.attrs| == |s.attrs| && |CutHead(s, env.version, h, groups).attrs| == |CutSchema(s, env.version).attrs|
    ensures WriteFields(env, CutSchema(s, env.version).attrs, CutHead(s, env.version, h, groups).attrs) ==
            WriteFields(env, s.attrs, h.attrs)
  {
    hide WriteFields, CutFields, CutAttrs, Dated;
    PresenceSplits(s, env.version, h);
    DatedAttrs(env.version, s.attrs, h.attrs);
    SameFields(env, s.operands, s.attrs, h.attrs);
  }

  lemma {:induction false} CutFieldsOk(s: OpSchema, v: Version, fs: seq<FieldSchema>)
    requires forall i :: 0 <= i < |fs| ==> FieldOk(s, fs[i])
    requires v.AtLeast(s.since) && (s.segmented ==> forall i :: 0 <= i < |s.operands| ==> RequiredIsOld(s, s.operands[i]))
    ensures forall i :: 0 <= i < |CutFields(v, s.operands, fs)| ==> FieldOk(CutSchema(s, v), CutFields(v, s.operands, fs)[i])
  {
    hide KindOk;
    if fs != [] {
      assert forall i :: 0 <= i < |fs[1..]| ==> fs[1..][i] == fs[i + 1];
      CutFieldsOk(s, v, fs[1..]);
      var f := fs[0];
      if f.fallback.AllFalse? {
        assert RequiredIsOld(s, s.operands[f.fallback.operand]);
        CutOperandPosition(v, s.operands, f.fallback.operand);
      }
    }
  }

  lemma {:induction false} CutOperandPosition(v: Version, os: seq<OperandSchema>, i: nat)
    requires i < |os| && OperandKept(v, os[i])
    ensures |CutOperands(v, os[..i])| < |CutOperands(v, os)|
    ensures CutOperands(v, os)[|CutOperands(v, os[..i])|] == os[i]
  {
    if i > 0 {
      assert os[1..][..i - 1] == os[..i][1..];
      CutOperandPosition(v, os[1..], i - 1);
    }
  }

  lemma {:induction false} CutSchemaOk(s: OpSchema, v: Version)
    requires SchemaOk(s) && v.AtLeast(s.since)
    ensures SchemaOk(CutSchema(s, v)) && CutSchema(s, v).since == s.since
  {
    hide FieldOk;
    CutFieldsOk(s, v, s.attrs);
    forall i: nat | s.segmented && i < |CutSchema(s, v).operands| ensures RequiredIsOld(CutSchema(s, v), CutSchema(s, v).operands[i]) {
      var j := CutOperandIsOne(v, s.operands, i);
      assert RequiredIsOld(s, s.operands[j]);
    }
    if !s.HasVersionedResults() {
      NothingCut(s, v, s.results);
    }
    OptionalFieldsShrink(s, v);
  }

  lemma {:induction false} OptionalFieldsShrink(s: OpSchema, v: Version)
    ensures |CutSchema(s, v).OptionalFields()| <= |s.OptionalFields()|
  {
    var attrs: seq<Option<Attr>> := seq(|s.attrs|, _ => None);
    var groups: seq<seq<nat>> := seq(|s.operands|, _ => []);
    AttrVersionsCut(v, s.operands, s.attrs, attrs);
    if s.segmented {
      OperandVersionsCut(v, s.operands, groups);
    }
  }

  lemma {:induction false} NothingRestored(s: OpSchema, v: Version, h: Head)
    requires Shaped(s, h)
    requires forall i :: 0 <= i < |s.attrs| ==> v.AtLeast(s.attrs[i].since)
    requires forall i :: 0 <= i < |s.results| ==> Compatible(s, v, s.results[i])
    ensures Restored(s, v, h) == h
  {
    assert Restored(s, v, h).attrs == h.attrs;
    assert Restored(s, v, h).results == h.results;
  }

  lemma {:induction false} CutFieldsDated(v: Version, os: seq<OperandSchema>, fs: seq<FieldSchema>)
    ensures forall i :: 0 <= i < |CutFields(v, os, fs)| ==> v.AtLeast(CutFields(v, os, fs)[i].since)
  {
    if fs != [] {
      CutFieldsDated(v, os, fs[1..]);
    }
  }

  /**
    Forward: a reader whose schema is cut at `v` reads what a newer writer wrote for `v`, and
    gets the part of the operation that its version knows. Backward: a newer reader reads
    what a writer of version `v` wrote, and gets the operation with the later fields
    restored. Both hold of the same bytes.
    */
  lemma {:induction false} VersionsUnderstandEachOther(w: Env, r: Env, s: OpSchema, h: Head,
                                                       groups: seq<seq<nat>>, used: seq<bool>, limit: nat,
                                                       rest: bytes)
    requires Linked(w, r) && SchemaOk(s) && Shaped(s, h) && |groups| == |s.operands| && Grouped(s, h, groups)
    requires |used| == |h.results| && w.version.AtLeast(s.since)
    requires WrittenAlike(s, w.version, groups) && WriteHead(w, s, h, used).Some?
    ensures var c, ch := CutSchema(s, w.version), CutHead(s, w.version, h, groups);
            && Shaped(c, ch) && |CutUsed(s, w.version, used)| == |ch.results|
            && WriteHead(w, c, ch, CutUsed(s, w.version, used)) == WriteHead(w, s, h, used)
            && ReadHead(r, c, limit, WriteHead(w, s, h, used).value + rest) ==
               (if ReadableHead(w, c, ch, limit) then Got(ch, rest) else Fail)
            && ReadHead(r, s, limit, WriteHead(w, c, ch, CutUsed(s, w.version, used)).value + rest) ==
               if ReadableHead(w, s, h, limit) then Got(Restored(s, w.version, h), rest) else Fail
  {
    hide WriteHead, ReadHead, ReadableHead, Shaped, SchemaOk, CutUsed, CutHead, WrittenAlike, Linked;
    var v := w.version;
    var c, ch := CutSchema(s, v), CutHead(s, v, h, groups);
    SameBytes(w, s, h, groups, used);
    CutSchemaOk(s, v);
    HeadRoundTrip(w, r, s, h, used, limit, rest);
    HeadRoundTrip(w, r, c, ch, CutUsed(s, v, used), limit, rest);
    CutIsDated(s, v);
    NothingRestored(c, v, ch);
  }

  // ---------------------------------------------------------------- where the bytes differ

  /** An operation of 13.1 with one result that gains its first operand in 13.3, without segments. */
  function Later(arity: Arity, a: Type): OpSchema {
    OpSchema(MIN_SUPPORTED_VERSION, [ResultSchema(MIN_SUPPORTED_VERSION, a)], false, [], [OperandSchema(arity, V13_3)],
             false, 0, false)
  }

  function LaterHead(a: Type, values: seq<nat>): Head {
    Head([a], [], [values])
  }

  function OldFile(types: seq<Option<Type>>): Env {
    Env(MIN_SUPPORTED_VERSION, [], types, [], map[])
  }

  lemma {:induction false} LaterIsOk(arity: Arity, a: Type)
    requires !arity.One?
    ensures var s, v := Later(arity, a), MIN_SUPPORTED_VERSION;
            && SchemaOk(s) && s.HasVariableOperands() && !s.HasVersionedResults() && !s.HasFlags(v)
            && (s.CountsResults() <==> arity.Many?)
            && CutSchema(s, v) == s.(operands := []) && !CutSchema(s, v).HasVariableOperands()
            && !CutSchema(s, v).HasVersionedResults() && !CutSchema(s, v).HasFlags(v) && !CutSchema(s, v).CountsResults()
  {
    var s, v := Later(arity, a), MIN_SUPPORTED_VERSION;
    assert !s.operands[0].arity.One? && s.operands[0].arity == arity;
    NothingCut(s, v, s.results);
    assert s.operands[1..] == [];
    assert CutOperands(v, s.operands) == [];
    assert s.OptionalFields() == [];
  }

  lemma {:induction false} LaterShape(arity: Arity, a: Type, values: seq<nat>)
    requires !arity.One? && |values| <= 1
    ensures var s, h := Later(arity, a), LaterHead(a, values);
            && Shaped(s, h) && Grouped(s, h, [values]) && Presence(s, h) == []
            && CutHead(s, MIN_SUPPORTED_VERSION, h, [values]) == LaterHead(a, [])
            && Shaped(CutSchema(s, MIN_SUPPORTED_VERSION), LaterHead(a, []))
            && Presence(CutSchema(s, MIN_SUPPORTED_VERSION), LaterHead(a, [])) == []
  {
    LaterIsOk(arity, a);
    hide OpSchema.HasVariableOperands, OpSchema.HasVersionedResults, SchemaOk, CutSchema, OpSchema.HasFlags,
         OpSchema.CountsResults;
    OneList(values);
    assert Later(arity, a).operands[1..] == [];
    assert CutGroups(MIN_SUPPORTED_VERSION, Later(arity, a).operands, [values]) == [];
  }

  lemma {:induction false} OneList(x: seq<nat>)
    ensures Tables.Concat([x]) == x
  {
    assert x + [] == x && [x][1..] == [];
  }

  /** Heads without attributes and flags: results, then operands. */
  lemma {:induction false} BareHead(env: Env, s: OpSchema, h: Head, used: seq<bool>, results: bytes, operands: bytes)
    requires Shaped(s, h) && |used| == |h.results| && s.attrs == [] && !s.HasFlags(env.version) && Presence(s, h) == []
    requires WriteResults(env, s, h.results, used) == Some(results) && WriteOperands(s, h.operands) == Some(operands)
    ensures WriteHead(env, s, h, used) == Some(results + operands)
  {
    hide WriteResults, WriteOperands, Presence, OpSchema.HasFlags;
    var nothing: bytes := [];
    assert nothing + operands == operands && nothing + (nothing + operands) == operands;
  }

  lemma {:induction false} OneResult(env: Env, s: OpSchema, a: Type)
    requires env.types != [] && env.types[0] == Some(a) && !s.HasVersionedResults()
    ensures WriteResults(env, s, [a], [false]) == Some(if s.CountsResults() then [1, 0] else [0])
  {
    hide OpSchema.HasVersionedResults, OpSchema.CountsResults;
    assert VarInt(0) == [0] && VarInt(1) == [1];
    var nothing: bytes := [];
    assert [0] + nothing == [0] && nothing + [0] == [0];
    assert [a][1..] == [] && WriteTypes(env, []) == Some([]);
    assert WriteTypes(env, [a]) == Some([0]);
    assert [1] + [0] == [1, 0];
  }

  lemma {:induction false} LoneGroup(s: OpSchema)
    requires !s.segmented && s.HasVariableOperands()
    ensures WriteOperands(s, [[]]) == Some([0]) && WriteOperands(s, [[5]]) == Some([1, 5])
  {
    assert VarInt(0) == [0] && VarInt(1) == [1] && VarInt(5) == [5];
    OneIndex(5);
    FlatGroup(s, []);
    FlatGroup(s, [5]);
    assert [1] + [5] == [1, 5];
    var nothing: bytes := [];
    assert [0] + nothing == [0];
  }

  /** The newer writer: the result, counted only for a variadic operand, and an operand count. */
  lemma {:induction false} LaterWrites(env: Env, arity: Arity, a: Type, values: seq<nat>, written: bytes)
    requires !arity.One? && (values == [] || values == [5]) && env.version == MIN_SUPPORTED_VERSION
    requires env.types != [] && env.types[0] == Some(a)
    requires written == (if arity.Many? then [1, 0] else [0]) + if values == [] then [0] else [1, 5]
    ensures Shaped(Later(arity, a), LaterHead(a, values))
    ensures WriteHead(env, Later(arity, a), LaterHead(a, values), [false]) == Some(written)
  {
    LaterIsOk(arity, a);
    LaterShape(arity, a, values);
    hide OpSchema.HasVariableOperands, OpSchema.HasVersionedResults, SchemaOk, CutSchema, OpSchema.HasFlags,
         OpSchema.CountsResults, WriteHead, WriteOperands, WriteResults, Grouped, Presence, Shaped, CutHead;
    var s := Later(arity, a);
    OneResult(env, s, a);
    LoneGroup(s);
    BareHead(env, s, LaterHead(a, values), [false], if arity.Many? then [1, 0] else [0], if values == [] then [0] else [1, 5]);
  }

  /** The older schema: the result and nothing else. */
  lemma {:induction false} LaterCut(env: Env, arity: Arity, a: Type)
    requires !arity.One? && env.version == MIN_SUPPORTED_VERSION && env.types != [] && env.types[0] == Some(a)
    ensures var c := CutSchema(Later(arity, a), MIN_SUPPORTED_VERSION);
            Shaped(c, LaterHead(a, [])) && WriteHead(env, c, LaterHead(a, []), [false]) == Some([0])
  {
    LaterIsOk(arity, a);
    LaterShape(arity, a, []);
    hide OpSchema.HasVariableOperands, OpSchema.HasVersionedResults, SchemaOk, CutSchema, OpSchema.HasFlags,
         OpSchema.CountsResults, WriteHead, WriteResults, Grouped, Presence, Shaped, CutHead;
    var c := CutSchema(Later(arity, a), MIN_SUPPORTED_VERSION);
    OneResult(env, c, a);
    FlatGroup(c, []);
    NothingWritten();
    BareHead(env, c, LaterHead(a, []), [false], [0], []);
    assert [0] + [] == [0];
  }

  lemma {:induction false} OneTypeRead(env: Env, c: OpSchema, i: byte, ty: Type, rest: bytes)
    requires i < 2 && i < |env.types| && env.types[i] == Some(ty)
    requires !c.CountsResults() && !c.HasVersionedResults() && |c.results| == 1
    ensures ReadResults(env, c, [i] + rest) == Got([ty], rest)
  {
    hide OpSchema.HasVersionedResults, OpSchema.CountsResults, ReadVarInt;
    assert VarInt(i) == [i];
    VarIntRoundTrip(i, rest);
    assert ReadTypes(env, 0, rest) == Got([], rest);
    assert [ty] + [] == [ty];
  }

  /** The older reader: one type, whatever the first byte stands for, and the rest is left. */
  lemma {:induction false} LaterRead(env: Env, arity: Arity, a: Type, i: byte, ty: Type, rest: bytes)
    requires !arity.One? && env.version == MIN_SUPPORTED_VERSION && i < 2 && i < |env.types| && env.types[i] == Some(ty)
    ensures ReadHead(env, CutSchema(Later(arity, a), MIN_SUPPORTED_VERSION), 0, [i] + rest) == Got(LaterHead(ty, []), rest)
  {
    LaterIsOk(arity, a);
    hide OpSchema.HasVariableOperands, OpSchema.HasVersionedResults, SchemaOk, CutSchema, OpSchema.HasFlags,
         OpSchema.CountsResults, ReadResults;
    var c := CutSchema(Later(arity, a), MIN_SUPPORTED_VERSION);
    OneTypeRead(env, c, i, ty, rest);
    assert Bits(c.OptionalFields(), 0) == [];
    assert ReadIndices(0, 0, rest) == Got([], rest);
  }

  lemma {:induction false} LaterCounts(arity: Arity, a: Type)
    requires !arity.One?
    ensures var s, v := Later(arity, a), MIN_SUPPORTED_VERSION;
            SchemaOk(s) && (CountsAlike(s, v) <==> !arity.Many?) && !SizesAlike(s, v)
  {
    LaterIsOk(arity, a);
    hide OpSchema.HasVariableOperands, OpSchema.HasVersionedResults, CutSchema, OpSchema.HasFlags, OpSchema.CountsResults;
  }

  /**
    The lone optional operand of an operation without segments: absent, it still costs a
    count, which the older reader leaves behind; present, it is written for a version that
    does not have it.
    */
  lemma {:induction false} LoneOptionalOperand(a: Type)
    ensures var env, s, absent, present := OldFile([Some(a)]), Later(ZeroOrOne, a), LaterHead(a, []), LaterHead(a, [5]);
            var c := CutSchema(s, MIN_SUPPORTED_VERSION);
            && SchemaOk(s) && Shaped(s, absent) && Grouped(s, absent, [[]]) && Shaped(s, present) && Grouped(s, present, [[5]])
            && CountsAlike(s, MIN_SUPPORTED_VERSION) && !SizesAlike(s, MIN_SUPPORTED_VERSION)
            && CutHead(s, MIN_SUPPORTED_VERSION, absent, [[]]) == absent && Shaped(c, absent)
            && WriteHead(env, s, absent, [false]) == Some([0, 0]) && WriteHead(env, c, absent, [false]) == Some([0])
            && ReadHead(env, c, 0, [0, 0]) == Got(absent, [0])
            && WriteHead(env, s, present, [false]) == Some([0, 1, 5])
  {
    hide SchemaOk, CutSchema, WriteHead, ReadHead, Grouped, Shaped, CountsAlike, SizesAlike, CutHead, Presence;
    var env := OldFile([Some(a)]);
    LaterShape(ZeroOrOne, a, []);
    LaterShape(ZeroOrOne, a, [5]);
    LaterCounts(ZeroOrOne, a);
    LaterWrites(env, ZeroOrOne, a, [], [0, 0]);
    LaterWrites(env, ZeroOrOne, a, [5], [0, 1, 5]);
    LaterCut(env, ZeroOrOne, a);
    LaterRead(env, ZeroOrOne, a, 0, a, [0]);
    assert [0] + [0] == [0, 0];
  }

  /**
    The result count of an operation whose first variadic operand is new: the older reader
    takes it for the type, and what was the type for the rest of the file.
    */
  lemma {:induction false} CountReadAsType(a: Type, b: Type)
    requires a != b
    ensures var env, s, h := OldFile([Some(a), Some(b)]), Later(Many, a), LaterHead(a, []);
            var c := CutSchema(s, MIN_SUPPORTED_VERSION);
            && SchemaOk(s) && Shaped(s, h) && Grouped(s, h, [[]])
            && !CountsAlike(s, MIN_SUPPORTED_VERSION) && !SizesAlike(s, MIN_SUPPORTED_VERSION)
            && CutHead(s, MIN_SUPPORTED_VERSION, h, [[]]) == h && Shaped(c, h)
            && WriteHead(env, s, h, [false]) == Some([1, 0, 0]) && WriteHead(env, c, h, [false]) == Some([0])
            && ReadHead(env, c, 0, [1, 0, 0]) == Got(LaterHead(b, []), [0, 0])
  {
    hide SchemaOk, CutSchema, WriteHead, ReadHead, Grouped, Shaped, CountsAlike, SizesAlike, CutHead, Presence;
    var env := OldFile([Some(a), Some(b)]);
    LaterShape(Many, a, []);
    LaterCounts(Many, a);
    LaterWrites(env, Many, a, [], [1, 0, 0]);
    LaterCut(env, Many, a);
    LaterRead(env, Many, a, 1, b, [0, 0]);
    assert [1] + [0, 0] == [1, 0, 0];
  }
}
