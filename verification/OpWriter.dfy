/**
  The generated writer of an operation as it runs: result types, flags, attributes and
  operands, with everything they refer to interned on the way.
  */
module OpWriters {
  import opened Base
  import opened VarInts
  import opened Ir
  import opened AttrCodec
  import opened AttrTables
  import opened OpCodec
  import opened Streams
  import opened Interning
  import opened AttrWriters
  import opened TableGrowth

  lemma {:induction false} OneMoreField(e: Env, fs: seq<FieldSchema>, attrs: seq<Option<Attr>>, i: nat)
    requires |attrs| == |fs| && i < |fs|
    ensures WriteFields(e, fs[..i + 1], attrs[..i + 1]) ==
            Joined(WriteFields(e, fs[..i], attrs[..i]), WriteField(e, fs[i], attrs[i]))
    ensures WriteField(e, fs[i], attrs[i]).None? ==> WriteFields(e, fs, attrs).None?
    decreases |fs|
  {
    hide WriteField;
    var head := WriteField(e, fs[0], attrs[0]);
    if i == 0 {
      OnlyFirst(fs);
      OnlyFirst(attrs);
      JoinedNothing(head);
    } else {
      Shifted(fs, i);
      Shifted(attrs, i);
      OneMoreField(e, fs[1..], attrs[1..], i - 1);
      JoinedAssoc(head, WriteFields(e, fs[1..][..i - 1], attrs[1..][..i - 1]), WriteField(e, fs[i], attrs[i]));
    }
  }

  /** One attribute, or nothing where the version does not have it or it is absent. */
  method WriteOneField(m: Managers, f: FieldSchema, a: Option<Attr>, writer: EncodingWriter) returns (ok: bool)
    requires m.Valid()
    modifies m.Repr(), writer`stream
    ensures m.Valid() && Wrote(old(m.Now()), m.Now(), ok, old(writer.stream), writer.stream, WriteField(m.Now(), f, a))
    ensures !ok ==> forall e :: Continues(m.Now(), e) ==> WriteField(e, f, a).None?
  {
    hide Managers.Valid, Write, Wrote, Continues;
    NothingWrote(m.Now(), writer.stream, writer.stream);
    NothingNeeded(m.Now(), writer.stream);
    if f.unit || (f.optional && a.None?) {
      return true;
    }
    if a.None? {
      return false;
    }
    if f.optional || m.version.AtLeast(f.since) {
      ok := WriteAttribute(m, f.kind, a.value, writer);
      VersionNow(m);
    } else {
      VersionNow(m);
      ok := f.fallback.NoDefault? || (f.fallback.Default? && a.value == f.fallback.value) ||
            (f.fallback.AllFalse? && AllZero(a.value));
    }
  }

  method WriteFieldValues(m: Managers, fs: seq<FieldSchema>, attrs: seq<Option<Attr>>, writer: EncodingWriter)
    returns (ok: bool)
    requires m.Valid() && |attrs| == |fs|
    modifies m.Repr(), writer`stream
    ensures m.Valid() && Wrote(old(m.Now()), m.Now(), ok, old(writer.stream), writer.stream, WriteFields(m.Now(), fs, attrs))
    ensures !ok ==> forall e :: Continues(m.Now(), e) ==> WriteFields(e, fs, attrs).None?
  {
    hide Managers.Valid, Managers.Now, WriteField, WriteFields;
    ghost var done: bytes := [];
    NoFields(m.Now(), fs, attrs);
    for i := 0 to |fs|
      invariant m.Valid() && Continues(old(m.Now()), m.Now())
      invariant WriteFields(m.Now(), fs[..i], attrs[..i]) == Some(done) && writer.stream == old(writer.stream) + done
    {
      ghost var e := m.Now();
      ok := WriteOneField(m, fs[i], attrs[i], writer);
      OneMoreField(m.Now(), fs, attrs, i);
      if !ok {
        forall later | Continues(m.Now(), later) ensures WriteFields(later, fs, attrs).None? {
          OneMoreField(later, fs, attrs, i);
        }
        return false;
      }
      FieldsStable(e, m.Now(), fs[..i], attrs[..i]);
      done := done + WriteField(m.Now(), fs[i], attrs[i]).value;
    }
    assert fs[..|fs|] == fs && attrs[..|fs|] == attrs;
    ok := true;
  }

  lemma {:induction false} NoFields(e: Env, fs: seq<FieldSchema>, attrs: seq<Option<Attr>>)
    requires |attrs| == |fs|
    ensures WriteFields(e, fs[..0], attrs[..0]) == Some([])
  {
  }

  method WriteResultTypes(m: Managers, s: OpSchema, types: seq<Type>, used: seq<bool>, writer: EncodingWriter)
    returns (ok: bool)
    requires m.Valid() && |used| == |types|
    modifies m.Repr(), writer`stream
    ensures m.Valid() && Wrote(old(m.Now()), m.Now(), ok, old(writer.stream), writer.stream,
                               WriteResults(m.Now(), s, types, used))
    ensures !ok ==> forall e :: Continues(m.Now(), e) ==> WriteResults(e, s, types, used).None?
  {
    hide Managers.Valid, WriteTypes, WrittenResults, VarInt, Continues, OpSchema.CountsResults;
    var written := WrittenResults(s, m.version, types, used);
    Reflexive(m.Now());
    VersionNow(m);
    if written.None? || (s.CountsResults() && |written.value| >= TWO_TO_THE_64) {
      return false;
    }
    if s.CountsResults() {
      writer.WriteVarInt(|written.value|);
    }
    ok := PutTypes(m, written.value, writer);
    VersionNow(m);
  }

  lemma {:induction false} ResultsStable(e1: Env, e2: Env, s: OpSchema, types: seq<Type>, used: seq<bool>)
    requires |used| == |types| && Continues(e1, e2) && WriteResults(e1, s, types, used).Some?
    ensures WriteResults(e2, s, types, used) == WriteResults(e1, s, types, used)
  {
    hide Continues, WriteTypes, WrittenResults, Count, OpSchema.CountsResults;
    SameVersion(e1, e2);
    TypesStable(e1, e2, WrittenResults(s, e1.version, types, used).value);
  }

  /** Everything of an operation but its opcode and its regions. */
  method WriteOperationHead(m: Managers, s: OpSchema, h: Head, used: seq<bool>, writer: EncodingWriter) returns (ok: bool)
    requires m.Valid() && Shaped(s, h) && |used| == |h.results|
    modifies m.Repr(), writer`stream
    ensures m.Valid() && Wrote(old(m.Now()), m.Now(), ok, old(writer.stream), writer.stream, WriteHead(m.Now(), s, h, used))
    ensures !ok ==> forall e :: Continues(m.Now(), e) ==> WriteHead(e, s, h, used).None?
  {
    hide Managers.Valid, Managers.Now, WriteResults, WriteFlags, WriteFields, WriteOperands, Presence, Continues;
    ghost var e0 := m.Now();
    ok := WriteResultTypes(m, s, h.results, used, writer);
    ghost var e1 := m.Now();
    if !ok {
      return false;
    }
    var flags := WriteFlags(s, m.version, Presence(s, h));
    VersionNow(m);
    if flags.None? {
      return false;
    }
    writer.WriteBytes(flags.value);
    ok := WriteFieldValues(m, s.attrs, h.attrs, writer);
    Transitive(e0, e1, m.Now());
    ResultsStable(e1, m.Now(), s, h.results, used);
    VersionNow(m);
    if !ok {
      return false;
    }
    var operands := WriteOperands(s, h.operands);
    if operands.None? {
      return false;
    }
    writer.WriteBytes(operands.value);
  }
}
