// The emitted decoder inverts the emitted encoder.
module JsonRoundTrip {
  import opened Wrappers
  import opened JsonTypes
  import opened JsonBind

  // ---------- Samples within all declared bounds ----------

  predicate Listed(es: seq<Enumerator>, n: int) {
    exists i :: 0 <= i < |es| && es[i].value == n
  }

  predicate PrimFits(p: Prim, v: Value) {
    match p
    case Boolean => v.VBool?
    case Character => v.VChar?
    case Integer(w, signed) => v.VInt? && InRange(w, signed, v.n)
    case Floating(_) => v.VFloat?
  }

  // A value inside a container that the JSON library converts without the generator's help.
  predicate PlainFits(m: Table, t: Type, v: Value)
    decreases v
  {
    match Resolve(m, t)
    case TPrim(p) => PrimFits(p, v)
    case TString(false, bound) => v.VStr? && Within(|v.s|, bound)
    case TString(true, bound) => v.VWStr? && Within(|v.ws|, bound) && forall c <- v.ws :: InRange(W32, false, c)
    case TNamed(f) => f in m.enums && v.VEnum? && Listed(m.enums[f], v.e)
    case TSeq(e, bound) => v.VSeq? && Within(|v.elems|, bound) && PlainsFit(m, e, v.elems)
    case TArray(e, dims) => |dims| == 1 && v.VArr? && |v.elems| == dims[0] && PlainsFit(m, e, v.elems)
    case TUnknown => false
  }

  predicate PlainsFit(m: Table, t: Type, vs: seq<Value>)
    decreases vs
  {
    vs == [] || (PlainFits(m, t, vs[0]) && PlainsFit(m, t, vs[1..]))
  }

  // t is a resolved type. No sample of a multi-dimensional array, of an unknown type or of an
  // unresolved name fits: the generator emits no conversion for those.
  predicate Fits(m: Table, t: Type, v: Value)
    decreases v, 2, 0
  {
    if IsStruct(m, t) then v.VStruct? && v.fields.Keys == Names(m.structs[t.fqn]) && FieldsFit(m, m.structs[t.fqn], v)
    else match t
      case TSeq(e, bound) => v.VSeq? && Within(|v.elems|, bound) && ElemsFit(m, Resolve(m, e), v.elems)
      case TArray(e, dims) => |dims| == 1 && v.VArr? && |v.elems| == dims[0] && ElemsFit(m, Resolve(m, e), v.elems)
      case _ => PlainFits(m, t, v)
  }

  predicate FieldsFit(m: Table, ms: seq<Member>, v: Value)
    requires v.VStruct?
    decreases v, 1, |ms|
  {
    ms == [] ||
    (ms[0].name in v.fields && Fits(m, Resolve(m, ms[0].mtype), v.fields[ms[0].name]) && FieldsFit(m, ms[1..], v))
  }

  predicate ElemFits(m: Table, t: Type, v: Value)
    decreases v, 3, 0
  {
    if IsEnum(m, t) || IsStruct(m, t) then Fits(m, t, v) else PlainFits(m, t, v)
  }

  predicate ElemsFit(m: Table, t: Type, vs: seq<Value>)
    decreases vs, 0, 0
  {
    vs == [] || (ElemFits(m, t, vs[0]) && ElemsFit(m, t, vs[1..]))
  }

  // What the C++ compiler demands of the table: no two enumerators of an enum share a name or a
  // value, no two members of a struct share a name. Enumerators are 32-bit integers.
  predicate EnumOk(es: seq<Enumerator>) {
    && (forall i :: 0 <= i < |es| ==> InRange(W32, true, es[i].value))
    && (forall i, j :: 0 <= i < j < |es| ==> es[i].name != es[j].name && es[i].value != es[j].value)
  }

  predicate MembersOk(ms: seq<Member>) {
    forall i, j :: 0 <= i < j < |ms| ==> ms[i].name != ms[j].name
  }

  predicate TableOk(m: Table) {
    && (forall f <- m.enums :: EnumOk(m.enums[f]))
    && (forall f <- m.structs :: MembersOk(m.structs[f]))
  }

  // ---------- Scalars ----------

  lemma {:induction false} EnumRoundTrip(es: seq<Enumerator>, n: int)
    requires EnumOk(es) && Listed(es, n)
    ensures EnumByName(es, EnumName(es, n)) == Some(VEnum(n))
  {
    if es[0].value != n {
      EnumRoundTrip(es[1..], n);
      NameListed(es[1..], n);
    }
  }

  lemma {:induction false} NameListed(es: seq<Enumerator>, n: int)
    requires Listed(es, n)
    ensures exists i :: 0 <= i < |es| && es[i].name == EnumName(es, n)
  {
    if es[0].value != n {
      NameListed(es[1..], n);
      var i :| 0 <= i < |es| - 1 && es[1..][i].name == EnumName(es[1..], n);
      assert es[i + 1].name == EnumName(es, n);
    }
  }

  lemma PrimRoundTrip(p: Prim, v: Value)
    requires PrimFits(p, v)
    ensures GetPrim(p, PutPlain(v)) == Some(v)
  {
    if p.Character? {
      assert InRange(W8, true, CharCode(v.c));
      assert CharCode(v.c) % 256 == v.c as int;
    }
  }

  lemma {:induction false} WideRoundTrip(ws: seq<int>)
    requires forall c <- ws :: InRange(W32, false, c)
    ensures GetWide(PutWide(ws)) == Some(ws)
  {
    if ws != [] {
      WideRoundTrip(ws[1..]);
      assert PutWide(ws)[1..] == PutWide(ws[1..]);
      assert ws == [ws[0]] + ws[1..];
    }
  }

  lemma {:induction false} CharsRoundTrip(m: Table, t: Type, vs: seq<Value>)
    requires Resolve(m, t) == TPrim(Character) && ElemsFit(m, TPrim(Character), vs)
    ensures ToChars(vs).Some? && FromChars(ToChars(vs).value) == vs
  {
    if vs != [] {
      CharsRoundTrip(m, t, vs[1..]);
    }
  }

  lemma {:induction false} PlainRoundTrip(m: Table, t: Type, v: Value)
    requires TableOk(m) && PlainFits(m, t, v)
    ensures GetPlain(m, t, PutPlain(v)) == Some(v)
    decreases v
  {
    match Resolve(m, t)
    case TPrim(p) => PrimRoundTrip(p, v);
    case TString(wide, _) => if wide { WideRoundTrip(v.ws); }
    case TNamed(f) => assert EnumOk(m.enums[f]);
    case TSeq(e, _) => PlainsRoundTrip(m, e, v.elems);
    case TArray(e, _) => PlainsRoundTrip(m, e, v.elems);
    case TUnknown =>
  }

  lemma {:induction false} PlainsRoundTrip(m: Table, t: Type, vs: seq<Value>)
    requires TableOk(m) && PlainsFit(m, t, vs)
    ensures GetPlains(m, t, PutPlains(vs), |vs|) == Some(vs)
    decreases vs
  {
    hide PlainFits, GetPlain, PutPlain, TableOk;
    if vs != [] {
      PlainRoundTrip(m, t, vs[0]);
      PlainsRoundTrip(m, t, vs[1..]);
      assert PutPlains(vs)[1..] == PutPlains(vs[1..]);
      assert vs == [vs[0]] + vs[1..];
    }
  }

  // ---------- Members, elements, structs ----------

  lemma {:induction false} MemberRoundTrip(b: Binding, t: Type, v: Value, old_: Value)
    requires TableOk(b.table) && Resolve(b.table, t) == t && Fits(b.table, t, v)
    ensures PutMember(b.table, t, v).Put?
    ensures GetMember(b, t, PutMember(b.table, t, v).j, old_) == Some(v)
    decreases v, 2, 0
  {
    var m := b.table;
    if IsStruct(m, t) {
      StructRoundTrip(b, t.fqn, v, old_);
    } else if IsEnum(m, t) {
      EnumRoundTrip(m.enums[t.fqn], v.e);
    } else if IsCharSeq(m, t) {
      CharsRoundTrip(m, t.elem, v.elems);
    } else if t.TSeq? {
      ElemsRoundTrip(b, Resolve(m, t.elem), v.elems, false, old_, 0);
    } else if t.TArray? {
      ElemsRoundTrip(b, Resolve(m, t.elem), v.elems, true, old_, 0);
    } else {
      PlainRoundTrip(m, t, v);
    }
  }

  lemma {:induction false} ElemRoundTrip(b: Binding, t: Type, v: Value, old_: Value)
    requires TableOk(b.table) && Resolve(b.table, t) == t && ElemFits(b.table, t, v)
    ensures PutElem(b.table, t, v).Some?
    ensures GetElem(b, t, PutElem(b.table, t, v).value, old_) == Some(v)
    decreases v, 3, 0
  {
    if IsStruct(b.table, t) {
      StructRoundTrip(b, t.fqn, v, old_);
    } else if IsEnum(b.table, t) {
      EnumRoundTrip(b.table.enums[t.fqn], v.e);
    } else {
      PlainRoundTrip(b.table, t, v);
    }
  }

  lemma {:induction false} ElemsRoundTrip(b: Binding, t: Type, vs: seq<Value>, inPlace: bool, old_: Value, i: nat)
    requires TableOk(b.table) && Resolve(b.table, t) == t && ElemsFit(b.table, t, vs)
    ensures PutElems(b.table, t, vs).Some?
    ensures GetElems(b, t, PutElems(b.table, t, vs).value, inPlace, old_, i) == Some(vs)
    decreases vs, 0, 0
  {
    if vs != [] {
      var target := if inPlace then ElemOf(old_, i) else InitialOf(b, t);
      ElemRoundTrip(b, t, vs[0], target);
      ElemsRoundTrip(b, t, vs[1..], inPlace, old_, i + 1);
      assert PutElems(b.table, t, vs).value[1..] == PutElems(b.table, t, vs[1..]).value;
      assert vs == [vs[0]] + vs[1..];
    }
  }

  // Encoding then decoding gives the sample back, in either mode, whatever the target held.
  lemma {:induction false} StructRoundTrip(b: Binding, f: text, v: Value, old_: Value)
    requires TableOk(b.table) && IsStruct(b.table, TNamed(f)) && Fits(b.table, TNamed(f), v)
    ensures PutStruct(b.table, f, v).Some?
    ensures GetStruct(b, f, PutStruct(b.table, f, v).value, old_) == Some(v)
    decreases v, 1, 0
  {
    var ms := b.table.structs[f];
    MembersEncode(b, ms, v);
    var o := PutMembers(b.table, ms, v).value;
    MembersDecode(b, ms, v, o, old_);
    assert GetMembers(b, ms, JObj(o), old_).value == v.fields;
  }

  lemma {:induction false} NamesSpec(ms: seq<Member>, name: text)
    ensures name in Names(ms) <==> exists i :: 0 <= i < |ms| && ms[i].name == name
  {
    if ms != [] {
      NamesSpec(ms[1..], name);
      if name in Names(ms[1..]) {
        var i :| 0 <= i < |ms| - 1 && ms[1..][i].name == name;
        assert ms[i + 1].name == name;
      }
    }
  }

  predicate Carries(m: Table, ms: seq<Member>, v: Value, o: map<text, Json>)
    requires v.VStruct?
  {
    forall i :: 0 <= i < |ms| ==>
      && ms[i].name in o && ms[i].name in v.fields
      && PutMember(m, Resolve(m, ms[i].mtype), v.fields[ms[i].name]) == Put(o[ms[i].name])
  }

  lemma {:induction false} MembersEncode(b: Binding, ms: seq<Member>, v: Value)
    requires TableOk(b.table) && MembersOk(ms) && v.VStruct? && FieldsFit(b.table, ms, v)
    ensures PutMembers(b.table, ms, v).Some?
    ensures Carries(b.table, ms, v, PutMembers(b.table, ms, v).value)
    decreases v, 0, |ms|
  {
    if ms != [] {
      ResolveResolved(b.table, ms[0].mtype);
      MemberRoundTrip(b, Resolve(b.table, ms[0].mtype), v.fields[ms[0].name], VBool(false));
      MembersEncode(b, ms[1..], v);
      forall i | 0 < i < |ms|
        ensures ms[i] == ms[1..][i - 1] && ms[i].name != ms[0].name
      {
      }
    }
  }

  lemma {:induction false} MembersDecode(b: Binding, ms: seq<Member>, v: Value, o: map<text, Json>, old_: Value)
    requires TableOk(b.table) && v.VStruct? && FieldsFit(b.table, ms, v) && Carries(b.table, ms, v, o)
    ensures GetMembers(b, ms, JObj(o), old_).Some?
    ensures forall k <- Names(ms) :: k in v.fields && GetMembers(b, ms, JObj(o), old_).value[k] == v.fields[k]
    decreases v, 0, |ms|
  {
    if ms != [] {
      var name := ms[0].name;
      ResolveResolved(b.table, ms[0].mtype);
      MemberRoundTrip(b, Resolve(b.table, ms[0].mtype), v.fields[name], FieldOf(old_, name));
      forall i | 0 <= i < |ms| - 1 ensures ms[1..][i] == ms[i + 1] {}
      MembersDecode(b, ms[1..], v, o, old_);
    }
  }
}
