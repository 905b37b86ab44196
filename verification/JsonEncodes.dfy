// What JSON each sample is encoded as, stated as a relation between the two and without the encoder
// (tools/emit_jsonbind.py, lines 313-388).
module JsonEncodes {
  import opened Wrappers
  import opened JsonTypes
  import opened JsonBind
  import opened JsonRoundTrip
  import opened JsonDecodes

  // ---------- Scalars and what the JSON library does on its own ----------

  // A character is a signed byte. An enumerator inside a container is its number.
  predicate PlainWrites(v: Value, j: Json)
    decreases v
  {
    match v
    case VBool(b) => j == JBool(b)
    case VChar(c) => j.JInt? && -128 <= j.jn <= 127 && (j.jn - c as int) % 256 == 0
    case VInt(n) => j == JInt(n)
    case VFloat(x) => j == JFloat(x)
    case VStr(s) => j == JStr(s)
    case VWStr(ws) => j.JArr? && |j.items| == |ws| && forall i :: 0 <= i < |ws| ==> j.items[i] == JInt(ws[i])
    case VEnum(n) => j == JInt(n)
    case VSeq(es) => j.JArr? && |j.items| == |es| && forall i :: 0 <= i < |es| ==> PlainWrites(es[i], j.items[i])
    case VArr(es) => j.JArr? && |j.items| == |es| && forall i :: 0 <= i < |es| ==> PlainWrites(es[i], j.items[i])
    case VStruct(_) => j == JNull
  }

  // The name of the first enumerator of that value.
  ghost predicate NameWrites(es: seq<Enumerator>, n: int, s: text) {
    || (exists i :: 0 <= i < |es| && es[i] == Enumerator(s, n) && forall h :: 0 <= h < i ==> es[h].value != n)
    || ((forall i :: 0 <= i < |es| ==> es[i].value != n) && s == "UNKNOWN_ENUM_VALUE")
  }

  ghost predicate EnumWrites(es: seq<Enumerator>, v: Value, j: Json) {
    v.VEnum? && j.JStr? && NameWrites(es, v.e, j.js)
  }

  lemma {:induction false} NameWritten(es: seq<Enumerator>, n: int, s: text)
    ensures EnumName(es, n) == s <==> NameWrites(es, n, s)
  {
    if es != [] {
      NameWritten(es[1..], n, s);
      forall i | 1 <= i < |es| ensures es[i] == es[1..][i - 1] {}
      if es[0].value == n {
        assert es[0] == Enumerator(es[0].name, n);
      } else {
        if i :| 0 <= i < |es| - 1 && es[1..][i] == Enumerator(s, n) &&
               forall h :: 0 <= h < i ==> es[1..][h].value != n {
          assert es[i + 1] == Enumerator(s, n);
        }
        if i :| 0 <= i < |es| && es[i] == Enumerator(s, n) && forall h :: 0 <= h < i ==> es[h].value != n {
          assert es[1..][i - 1] == Enumerator(s, n);
        }
      }
    }
  }

  lemma EnumWritten(es: seq<Enumerator>, v: Value, j: Json)
    ensures v.VEnum? && j == JStr(EnumName(es, v.e)) <==> EnumWrites(es, v, j)
  {
    hide EnumName, NameWrites;
    if v.VEnum? && j.JStr? { NameWritten(es, v.e, j.js); }
  }

  lemma {:induction false} WideWritten(ws: seq<int>, js: seq<Json>)
    ensures PutWide(ws) == js <==> |js| == |ws| && forall i :: 0 <= i < |ws| ==> js[i] == JInt(ws[i])
  {
    if ws != [] && |js| == |ws| {
      WideWritten(ws[1..], js[1..]);
      forall i | 1 <= i < |ws| ensures ws[i] == ws[1..][i - 1] && js[i] == js[1..][i - 1] {}
      assert js == [js[0]] + js[1..];
    }
  }

  lemma CharWritten(c: octet, j: Json)
    ensures j == JInt(CharCode(c)) <==> PlainWrites(VChar(c), j)
  {
  }

  lemma {:induction false} PlainWritten(v: Value, j: Json)
    ensures PutPlain(v) == j <==> PlainWrites(v, j)
    decreases v
  {
    match v
    case VChar(c) => CharWritten(c, j);
    case VWStr(ws) => if j.JArr? { WideWritten(ws, j.items); }
    case VSeq(es) => if j.JArr? { PlainsWritten(es, j.items); }
    case VArr(es) => if j.JArr? { PlainsWritten(es, j.items); }
    case _ =>
  }

  lemma {:induction false} PlainsWritten(vs: seq<Value>, js: seq<Json>)
    ensures PutPlains(vs) == js <==> |js| == |vs| && forall i :: 0 <= i < |vs| ==> PlainWrites(vs[i], js[i])
    decreases vs
  {
    hide PutPlain, PlainWrites;
    if vs != [] && |js| == |vs| {
      PlainWritten(vs[0], js[0]);
      PlainsWritten(vs[1..], js[1..]);
      forall i | 1 <= i < |vs| ensures vs[i] == vs[1..][i - 1] && js[i] == js[1..][i - 1] {}
      assert js == [js[0]] + js[1..];
    }
  }

  // ---------- Members, elements and structs ----------

  predicate CharSequence(m: Table, t: Type) { t.TSeq? && Resolve(m, t.elem) == TPrim(Character) }

  // Members of any other type are left out.
  predicate Emits(m: Table, t: Type) {
    match t
    case TNamed(f) => f in m.enums || f in m.structs
    case TArray(_, dims) => |dims| == 1
    case TUnknown => false
    case _ => true
  }

  ghost predicate MemberWrites(m: Table, t: Type, v: Value, j: Json)
    decreases v, 2
  {
    if CharSequence(m, t) then
      && v.VSeq? && j.JStr? && |j.js| == |v.elems|
      && forall i :: 0 <= i < |v.elems| ==> v.elems[i] == VChar(j.js[i])
    else match t
      case TPrim(_) => PlainWrites(v, j)
      case TString(_, _) => PlainWrites(v, j)
      case TNamed(f) => if f in m.enums then EnumWrites(m.enums[f], v, j) else StructWrites(m, f, v, j)
      case TSeq(e, _) =>
        && v.VSeq? && j.JArr? && |j.items| == |v.elems|
        && forall i :: 0 <= i < |v.elems| ==> ElemWrites(m, Resolve(m, e), v.elems[i], j.items[i])
      case TArray(e, dims) =>
        && |dims| == 1 && v.VArr? && j.JArr? && |j.items| == |v.elems|
        && forall i :: 0 <= i < |v.elems| ==> ElemWrites(m, Resolve(m, e), v.elems[i], j.items[i])
      case TUnknown => false
  }

  ghost predicate ElemWrites(m: Table, t: Type, v: Value, j: Json)
    decreases v, 2
  {
    if t.TNamed? && t.fqn in m.enums then EnumWrites(m.enums[t.fqn], v, j)
    else if t.TNamed? && t.fqn in m.structs then StructWrites(m, t.fqn, v, j)
    else PlainWrites(v, j)
  }

  ghost predicate StructWrites(m: Table, f: text, v: Value, j: Json)
    decreases v, 1
  {
    f in m.structs && v.VStruct? && j.JObj? && FieldsWrite(m, m.structs[f], v, j.members)
  }

  // The object has the emitted members and no other.
  ghost predicate FieldsWrite(m: Table, ms: seq<Member>, v: Value, o: map<text, Json>)
    requires v.VStruct?
    decreases v, 0
  {
    && (forall name :: name in o <==>
          exists i :: 0 <= i < |ms| && ms[i].name == name && Emits(m, Resolve(m, ms[i].mtype)))
    && forall i :: 0 <= i < |ms| ==>
         && ms[i].name in v.fields
         && (Emits(m, Resolve(m, ms[i].mtype)) ==>
               ms[i].name in o && MemberWrites(m, Resolve(m, ms[i].mtype), v.fields[ms[i].name], o[ms[i].name]))
  }

  lemma {:induction false} CharsWritten(vs: seq<Value>, s: text)
    ensures ToChars(vs) == Some(s) <==> |s| == |vs| && forall i :: 0 <= i < |vs| ==> vs[i] == VChar(s[i])
  {
    if vs != [] && |s| == |vs| {
      CharsWritten(vs[1..], s[1..]);
      forall i | 1 <= i < |vs| ensures vs[i] == vs[1..][i - 1] && s[i] == s[1..][i - 1] {}
      assert s == [s[0]] + s[1..];
    }
  }

  lemma SkippedExactly(m: Table, t: Type, v: Value)
    ensures PutMember(m, t, v) == Skipped <==> !Emits(m, t)
  {
    hide PutPlain, PutElems, PutStruct, ToChars, EnumName, Resolve;
  }

  lemma CharSeqUnfold(m: Table, t: Type, v: Value, j: Json)
    requires CharSequence(m, t)
    ensures PutMember(m, t, v) == Put(j) <==> v.VSeq? && j.JStr? && ToChars(v.elems) == Some(j.js)
    ensures MemberWrites(m, t, v, j) <==>
            && v.VSeq? && j.JStr? && |j.js| == |v.elems|
            && forall i :: 0 <= i < |v.elems| ==> v.elems[i] == VChar(j.js[i])
  {
    hide ToChars;
  }

  lemma PlainUnfold(m: Table, t: Type, v: Value, j: Json)
    requires t.TPrim? || t.TString?
    ensures PutMember(m, t, v) == Put(PutPlain(v))
    ensures MemberWrites(m, t, v, j) == PlainWrites(v, j)
  {
    hide PutPlain, PlainWrites, Resolve;
  }

  lemma NamedUnfold(m: Table, t: Type, v: Value)
    requires t.TNamed?
    ensures PutMember(m, t, v) ==
            if t.fqn in m.enums then (if v.VEnum? then Put(JStr(EnumName(m.enums[t.fqn], v.e))) else Failed)
            else if t.fqn in m.structs then FromOption(PutStruct(m, t.fqn, v))
            else Skipped
  {
    hide EnumName, Resolve;
  }

  lemma NamedWritesUnfold(m: Table, t: Type, v: Value, j: Json)
    requires t.TNamed?
    ensures MemberWrites(m, t, v, j) ==
            if t.fqn in m.enums then EnumWrites(m.enums[t.fqn], v, j) else StructWrites(m, t.fqn, v, j)
  {
    hide EnumWrites, StructWrites, Resolve;
  }

  // A sequence or array of anything but characters.
  lemma ListUnfold(m: Table, t: Type, v: Value, j: Json)
    requires (t.TSeq? && !CharSequence(m, t)) || t.TArray?
    ensures var r := Resolve(m, t.elem);
            var fits := if t.TSeq? then v.VSeq? else |t.dims| == 1 && v.VArr?;
            && (PutMember(m, t, v) == Put(j) <==> fits && j.JArr? && PutElems(m, r, v.elems) == Some(j.items))
            && (MemberWrites(m, t, v, j) <==>
                  && fits && j.JArr? && |j.items| == |v.elems|
                  && forall i :: 0 <= i < |v.elems| ==> ElemWrites(m, r, v.elems[i], j.items[i]))
  {
    hide PutElems, ElemWrites;
  }

  // Encoding a member gives j exactly when the member writes as j.
  lemma {:induction false} MemberWritten(m: Table, t: Type, v: Value, j: Json)
    requires StructsOk(m)
    ensures PutMember(m, t, v) == Put(j) <==> MemberWrites(m, t, v, j)
    decreases v, 2, 0
  {
    hide StructsOk, PutMember, MemberWrites, PutPlain, PlainWrites, PutElems, ElemWrites, PutStruct, StructWrites,
         EnumWrites, EnumName, ToChars, Resolve;
    match t
    case TPrim(_) =>
      PlainUnfold(m, t, v, j);
      PlainWritten(v, j);
    case TString(_, _) =>
      PlainUnfold(m, t, v, j);
      PlainWritten(v, j);
    case TNamed(f) =>
      NamedUnfold(m, t, v);
      NamedWritesUnfold(m, t, v, j);
      if f in m.enums {
        EnumWritten(m.enums[f], v, j);
      } else {
        StructWritten(m, f, v, j);
        NoStruct(m, f, v, j);
      }
    case TSeq(e, _) =>
      if CharSequence(m, t) {
        CharSeqUnfold(m, t, v, j);
        if v.VSeq? && j.JStr? { CharsWritten(v.elems, j.js); }
      } else {
        ListUnfold(m, t, v, j);
        if v.VSeq? && j.JArr? { ElemsWritten(m, Resolve(m, e), v.elems, j.items); }
      }
    case TArray(e, _) =>
      ListUnfold(m, t, v, j);
      if v.VArr? && j.JArr? { ElemsWritten(m, Resolve(m, e), v.elems, j.items); }
    case TUnknown => Unknown(m, v, j);
  }

  lemma Unknown(m: Table, v: Value, j: Json)
    ensures PutMember(m, TUnknown, v) == Skipped && !MemberWrites(m, TUnknown, v, j)
  {
    hide Resolve;
  }

  lemma NoStruct(m: Table, f: text, v: Value, j: Json)
    ensures f !in m.structs ==> !StructWrites(m, f, v, j)
  {
  }

  lemma ElemUnfold(m: Table, t: Type, v: Value)
    ensures PutElem(m, t, v) ==
            if IsEnum(m, t) then (if v.VEnum? then Some(JStr(EnumName(m.enums[t.fqn], v.e))) else None)
            else if IsStruct(m, t) then PutStruct(m, t.fqn, v)
            else Some(PutPlain(v))
  {
    hide EnumName, PutPlain;
  }

  lemma ElemWritesUnfold(m: Table, t: Type, v: Value, j: Json)
    ensures ElemWrites(m, t, v, j) ==
            if IsEnum(m, t) then EnumWrites(m.enums[t.fqn], v, j)
            else if IsStruct(m, t) then StructWrites(m, t.fqn, v, j)
            else PlainWrites(v, j)
  {
    hide EnumWrites, StructWrites, PlainWrites;
  }

  lemma {:induction false} ElemWritten(m: Table, t: Type, v: Value, j: Json)
    requires StructsOk(m)
    ensures PutElem(m, t, v) == Some(j) <==> ElemWrites(m, t, v, j)
    decreases v, 2, 0
  {
    hide StructsOk, PutElem, ElemWrites, PutPlain, PlainWrites, PutStruct, StructWrites, EnumWrites, EnumName;
    ElemUnfold(m, t, v);
    ElemWritesUnfold(m, t, v, j);
    if IsEnum(m, t) {
      EnumWritten(m.enums[t.fqn], v, j);
    } else if IsStruct(m, t) {
      StructWritten(m, t.fqn, v, j);
    } else {
      PlainWritten(v, j);
    }
  }

  lemma ElemsUnfold(m: Table, t: Type, vs: seq<Value>)
    ensures PutElems(m, t, vs) ==
            if vs == [] then Some([])
            else match (PutElem(m, t, vs[0]), PutElems(m, t, vs[1..]))
                 case (Some(j), Some(js)) => Some([j] + js)
                 case _ => None
  {
    hide PutElem;
  }

  lemma {:induction false} ElemsWritten(m: Table, t: Type, vs: seq<Value>, js: seq<Json>)
    requires StructsOk(m)
    ensures PutElems(m, t, vs) == Some(js) <==>
            |js| == |vs| && forall i :: 0 <= i < |vs| ==> ElemWrites(m, t, vs[i], js[i])
    decreases vs
  {
    hide StructsOk, PutElem, PutElems, ElemWrites;
    ElemsUnfold(m, t, vs);
    if vs != [] && |js| == |vs| {
      ElemWritten(m, t, vs[0], js[0]);
      ElemsWritten(m, t, vs[1..], js[1..]);
      forall i | 1 <= i < |vs| ensures vs[i] == vs[1..][i - 1] && js[i] == js[1..][i - 1] {}
      assert js == [js[0]] + js[1..];
    }
  }

  lemma StructUnfold(m: Table, f: text, v: Value, j: Json)
    ensures PutStruct(m, f, v) == Some(j) <==>
            f in m.structs && v.VStruct? && j.JObj? && PutMembers(m, m.structs[f], v) == Some(j.members)
  {
    hide PutMembers;
  }

  lemma StructWritesUnfold(m: Table, f: text, v: Value, j: Json)
    ensures StructWrites(m, f, v, j) <==>
            f in m.structs && v.VStruct? && j.JObj? && FieldsWrite(m, m.structs[f], v, j.members)
  {
    hide FieldsWrite;
  }

  lemma {:induction false} StructWritten(m: Table, f: text, v: Value, j: Json)
    requires StructsOk(m)
    ensures PutStruct(m, f, v) == Some(j) <==> StructWrites(m, f, v, j)
    decreases v, 1, 0
  {
    hide PutStruct, StructWrites, PutMembers, FieldsWrite, MembersOk;
    StructUnfold(m, f, v, j);
    StructWritesUnfold(m, f, v, j);
    if f in m.structs && v.VStruct? && j.JObj? { FieldsWritten(m, m.structs[f], v, j.members); }
  }

  // The object without the first member, if that is emitted.
  lemma FieldsStep(m: Table, ms: seq<Member>, v: Value, o: map<text, Json>)
    requires ms != [] && MembersOk(ms) && v.VStruct? && ms[0].name in v.fields
    ensures var name, t := ms[0].name, Resolve(m, ms[0].mtype);
            if Emits(m, t) then
              FieldsWrite(m, ms, v, o) <==>
                name in o && MemberWrites(m, t, v.fields[name], o[name]) && FieldsWrite(m, ms[1..], v, o - {name})
            else FieldsWrite(m, ms, v, o) <==> FieldsWrite(m, ms[1..], v, o)
  {
    hide MemberWrites, Emits, Resolve;
    forall i | 1 <= i < |ms| ensures ms[i] == ms[1..][i - 1] && ms[i].name != ms[0].name {}
    var name, t := ms[0].name, Resolve(m, ms[0].mtype);
    var o' := if Emits(m, t) then o - {name} else o;
    if FieldsWrite(m, ms, v, o) { FieldsRest(m, ms, v, o, o'); }
    if FieldsWrite(m, ms[1..], v, o') && (Emits(m, t) ==> name in o && MemberWrites(m, t, v.fields[name], o[name])) {
      FieldsMore(m, ms, v, o, o');
    }
  }

  lemma FieldsRest(m: Table, ms: seq<Member>, v: Value, o: map<text, Json>, o': map<text, Json>)
    requires ms != [] && MembersOk(ms) && v.VStruct? && ms[0].name in v.fields && FieldsWrite(m, ms, v, o)
    requires o' == if Emits(m, Resolve(m, ms[0].mtype)) then o - {ms[0].name} else o
    ensures FieldsWrite(m, ms[1..], v, o')
  {
    hide MemberWrites, Emits, Resolve;
    forall i | 1 <= i < |ms| ensures ms[i] == ms[1..][i - 1] && ms[i].name != ms[0].name {}
    forall name
      ensures name in o' <==>
              exists i :: 0 <= i < |ms| - 1 && ms[1..][i].name == name && Emits(m, Resolve(m, ms[1..][i].mtype))
    {
      if i :| 0 <= i < |ms| && ms[i].name == name && Emits(m, Resolve(m, ms[i].mtype)) {
        if i > 0 { assert ms[1..][i - 1].name == name; }
      }
      if i :| 0 <= i < |ms| - 1 && ms[1..][i].name == name && Emits(m, Resolve(m, ms[1..][i].mtype)) {
        assert ms[i + 1].name == name;
      }
    }
  }

  lemma FieldsMore(m: Table, ms: seq<Member>, v: Value, o: map<text, Json>, o': map<text, Json>)
    requires ms != [] && MembersOk(ms) && v.VStruct? && ms[0].name in v.fields && FieldsWrite(m, ms[1..], v, o')
    requires var name, t := ms[0].name, Resolve(m, ms[0].mtype);
             if Emits(m, t) then
               name in o && MemberWrites(m, t, v.fields[name], o[name]) && o' == o - {name}
             else o' == o
    ensures FieldsWrite(m, ms, v, o)
  {
    hide MemberWrites, Emits, Resolve;
    forall i | 1 <= i < |ms| ensures ms[i] == ms[1..][i - 1] && ms[i].name != ms[0].name {}
    forall name
      ensures name in o <==> exists i :: 0 <= i < |ms| && ms[i].name == name && Emits(m, Resolve(m, ms[i].mtype))
    {
      assert name in o <==> name in o' || (name == ms[0].name && Emits(m, Resolve(m, ms[0].mtype)));
      assert name in o' <==>
             exists i :: 0 <= i < |ms| - 1 && ms[1..][i].name == name && Emits(m, Resolve(m, ms[1..][i].mtype));
      if i :| 0 <= i < |ms| - 1 && ms[1..][i].name == name && Emits(m, Resolve(m, ms[1..][i].mtype)) {
        assert ms[i + 1].name == name;
      }
      if i :| 0 <= i < |ms| && ms[i].name == name && Emits(m, Resolve(m, ms[i].mtype)) {
        if i > 0 { assert ms[1..][i - 1].name == name; }
      }
    }
  }

  lemma MembersUnfold(m: Table, ms: seq<Member>, v: Value)
    requires ms != [] && v.VStruct?
    ensures PutMembers(m, ms, v) ==
            if ms[0].name !in v.fields then None
            else
              match (PutMember(m, Resolve(m, ms[0].mtype), v.fields[ms[0].name]), PutMembers(m, ms[1..], v))
              case (Put(j), Some(o)) => Some(o[ms[0].name := j])
              case (Skipped, Some(o)) => Some(o)
              case _ => None
  {
    hide PutMember, Resolve;
  }

  lemma NoMembers(m: Table, v: Value, o: map<text, Json>)
    requires v.VStruct?
    ensures PutMembers(m, [], v) == Some(o) <==> FieldsWrite(m, [], v, o)
  {
    assert (forall name :: name !in o) ==> o == map[];
  }

  // The first member's name is no name of the others.
  lemma NotAmong(m: Table, ms: seq<Member>, v: Value, o: map<text, Json>)
    requires ms != [] && MembersOk(ms) && v.VStruct? && FieldsWrite(m, ms[1..], v, o)
    ensures ms[0].name !in o
  {
    hide MemberWrites, Emits, Resolve;
    forall i | 1 <= i < |ms| ensures ms[i] == ms[1..][i - 1] && ms[i].name != ms[0].name {}
  }

  lemma PutBack(o: map<text, Json>, q: map<text, Json>, name: text, j: Json)
    requires name !in q
    ensures q[name := j] == o <==> name in o && o[name] == j && q == o - {name}
  {
  }

  lemma {:induction false} FieldsWritten(m: Table, ms: seq<Member>, v: Value, o: map<text, Json>)
    requires StructsOk(m) && MembersOk(ms) && v.VStruct?
    ensures PutMembers(m, ms, v) == Some(o) <==> FieldsWrite(m, ms, v, o)
    decreases v, 0, |ms|
  {
    hide StructsOk, PutMember, PutMembers, MemberWrites, FieldsWrite, Emits, Resolve;
    if ms == [] {
      NoMembers(m, v, o);
    } else {
      MembersUnfold(m, ms, v);
      if ms[0].name in v.fields {
        var name, t, rest := ms[0].name, Resolve(m, ms[0].mtype), PutMembers(m, ms[1..], v);
        FieldsStep(m, ms, v, o);
        SkippedExactly(m, t, v.fields[name]);
        if rest.Some? {
          FieldsWritten(m, ms[1..], v, rest.value);
          NotAmong(m, ms, v, rest.value);
        }
        FieldsWritten(m, ms[1..], v, if Emits(m, t) then o - {name} else o);
        if name in o { MemberWritten(m, t, v.fields[name], o[name]); }
        var first := PutMember(m, t, v.fields[name]);
        if first.Put? && rest.Some? { PutBack(o, rest.value, name, first.j); }
      } else {
        Missing(m, ms, v, o);
      }
    }
  }

  lemma Missing(m: Table, ms: seq<Member>, v: Value, o: map<text, Json>)
    requires ms != [] && v.VStruct? && ms[0].name !in v.fields
    ensures !FieldsWrite(m, ms, v, o)
  {
    hide MemberWrites, Emits, Resolve;
  }
}
