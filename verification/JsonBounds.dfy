// Which successful decodes respect the declared bounds, and what a partial JSON leaves alone.
module JsonBounds {
  import opened Wrappers
  import opened JsonTypes
  import opened JsonBind
  import opened JsonRoundTrip

  // ---------- The bounds the emitted decoder leaves to its caller ----------
  // It checks narrow strings, character sequences, outer sequences and outer arrays. Nothing checks
  // wide strings, anything bounded inside a container element, or the range of an integer that
  // stands for an enumerator. PlainJsonFits and JsonFits ask just these questions of the JSON.

  predicate PlainJsonFits(m: Table, t: Type, j: Json)
    decreases j
  {
    match Resolve(m, t)
    case TString(false, bound) => j.JStr? ==> Within(|j.js|, bound)
    case TString(true, bound) => j.JArr? ==> Within(|j.items|, bound)
    case TNamed(f) =>
      f in m.enums ==> var n := GetInteger(W32, true, j); n.Some? ==> Listed(m.enums[f], n.value)
    case TSeq(e, bound) => j.JArr? ==> Within(|j.items|, bound) && PlainJsonsFit(m, e, j.items, |j.items|)
    case TArray(e, dims) => j.JArr? && |dims| == 1 && dims[0] <= |j.items| ==> PlainJsonsFit(m, e, j.items, dims[0])
    case _ => true
  }

  predicate PlainJsonsFit(m: Table, t: Type, js: seq<Json>, n: nat)
    requires n <= |js|
    decreases js
  {
    n == 0 || (PlainJsonFits(m, t, js[0]) && PlainJsonsFit(m, t, js[1..], n - 1))
  }

  predicate JsonFits(m: Table, t: Type, j: Json)
    decreases j, 2, 0
  {
    if IsEnum(m, t) then j.JInt? ==> Listed(m.enums[t.fqn], Cast(W32, true, j.jn))
    else if IsStruct(m, t) then MembersJsonFit(m, m.structs[t.fqn], j)
    else if IsCharSeq(m, t) then true
    else match t
      case TString(true, bound) => j.JArr? ==> Within(|j.items|, bound)
      case TSeq(e, _) => j.JArr? ==> ElemsJsonFit(m, Resolve(m, e), j.items)
      case TArray(e, _) => j.JArr? ==> ElemsJsonFit(m, Resolve(m, e), j.items)
      case _ => true
  }

  predicate MembersJsonFit(m: Table, ms: seq<Member>, j: Json)
    decreases j, 1, |ms|
  {
    ms == [] ||
    ((Has(j, ms[0].name) ==> JsonFits(m, Resolve(m, ms[0].mtype), j.members[ms[0].name])) &&
     MembersJsonFit(m, ms[1..], j))
  }

  predicate ElemsJsonFit(m: Table, t: Type, js: seq<Json>)
    decreases js, 0, 0
  {
    js == [] ||
    ((if IsEnum(m, t) || IsStruct(m, t) then JsonFits(m, t, js[0]) else PlainJsonFits(m, t, js[0])) &&
     ElemsJsonFit(m, t, js[1..]))
  }

  // Members that the mode allows to be absent come from a sample that was within bounds.
  predicate TargetOk(b: Binding, t: Type, old_: Value) {
    b.strictAll || (InitialsFit(b) && Fits(b.table, t, old_))
  }

  predicate InitialsFit(b: Binding) {
    forall f <- b.table.structs :: f in b.initial && Fits(b.table, TNamed(f), b.initial[f])
  }

  lemma {:induction false} ListedByName(es: seq<Enumerator>, s: text)
    ensures EnumByName(es, s).Some? ==> EnumByName(es, s).value.VEnum? && Listed(es, EnumByName(es, s).value.e)
  {
    if es != [] {
      if es[0].name == s {
        assert es[0].value == EnumByName(es, s).value.e;
      } else {
        ListedByName(es[1..], s);
        if EnumByName(es, s).Some? {
          var i :| 0 <= i < |es| - 1 && es[1..][i].value == EnumByName(es, s).value.e;
          assert es[i + 1].value == EnumByName(es, s).value.e;
        }
      }
    }
  }

  lemma EnumWithinBounds(m: Table, t: Type, j: Json)
    requires IsEnum(m, t) && Resolve(m, t) == t && ParseEnum(m.enums[t.fqn], j).Some?
    ensures Fits(m, t, ParseEnum(m.enums[t.fqn], j).value) <==> JsonFits(m, t, j)
  {
    if j.JStr? { ListedByName(m.enums[t.fqn], j.js); }
  }

  lemma {:induction false} PlainBounds(m: Table, t: Type, j: Json)
    requires GetPlain(m, t, j).Some?
    ensures PlainFits(m, t, GetPlain(m, t, j).value) <==> PlainJsonFits(m, t, j)
    decreases j
  {
    match Resolve(m, t)
    case TSeq(e, _) => PlainsBounds(m, e, j.items, |j.items|);
    case TArray(e, dims) => PlainsBounds(m, e, j.items, dims[0]);
    case _ =>
  }

  lemma {:induction false} PlainsBounds(m: Table, t: Type, js: seq<Json>, n: nat)
    requires n <= |js| && GetPlains(m, t, js, n).Some?
    ensures PlainsFit(m, t, GetPlains(m, t, js, n).value) <==> PlainJsonsFit(m, t, js, n)
    decreases js
  {
    if n > 0 {
      PlainBounds(m, t, js[0]);
      PlainsBounds(m, t, js[1..], n - 1);
      assert GetPlains(m, t, js, n).value[1..] == GetPlains(m, t, js[1..], n - 1).value;
    }
  }

  lemma {:induction false} CharsFit(m: Table, s: text)
    ensures ElemsFit(m, TPrim(Character), FromChars(s))
  {
    if s != [] {
      assert FromChars(s)[1..] == FromChars(s[1..]);
      CharsFit(m, s[1..]);
    }
  }

  // A successful decode is within all bounds exactly when the JSON asked for nothing beyond the
  // bounds that the decoder does not check.
  lemma {:induction false} DecodeWithinBounds(b: Binding, t: Type, j: Json, old_: Value)
    requires TableOk(b.table) && Resolve(b.table, t) == t && TargetOk(b, t, old_)
    requires GetMember(b, t, j, old_).Some?
    ensures Fits(b.table, t, GetMember(b, t, j, old_).value) <==> JsonFits(b.table, t, j)
    decreases j, 2, 0
  {
    var m := b.table;
    if IsStruct(m, t) {
      StructWithinBounds(b, t.fqn, j, old_);
    } else if IsEnum(m, t) {
      EnumWithinBounds(m, t, j);
    } else if IsCharSeq(m, t) {
      CharsFit(m, j.js);
    } else if t.TSeq? {
      ElemsWithinBounds(b, Resolve(m, t.elem), j.items, false, old_, 0);
    } else if t.TArray? {
      ElemsWithinBounds(b, Resolve(m, t.elem), j.items, true, old_, 0);
    }
  }

  lemma {:induction false} StructWithinBounds(b: Binding, f: text, j: Json, old_: Value)
    requires TableOk(b.table) && IsStruct(b.table, TNamed(f)) && TargetOk(b, TNamed(f), old_)
    requires GetStruct(b, f, j, old_).Some?
    ensures Fits(b.table, TNamed(f), GetStruct(b, f, j, old_).value) <==> JsonFits(b.table, TNamed(f), j)
    decreases j, 1, 0
  {
    MembersWithinBounds(b, b.table.structs[f], j, old_);
  }

  predicate FieldsOk(b: Binding, ms: seq<Member>, old_: Value) {
    b.strictAll || (InitialsFit(b) && old_.VStruct? && FieldsFit(b.table, ms, old_))
  }

  lemma {:induction false} MembersWithinBounds(b: Binding, ms: seq<Member>, j: Json, old_: Value)
    requires TableOk(b.table) && MembersOk(ms) && FieldsOk(b, ms, old_)
    requires GetMembers(b, ms, j, old_).Some?
    ensures FieldsFit(b.table, ms, VStruct(GetMembers(b, ms, j, old_).value)) <==> MembersJsonFit(b.table, ms, j)
    decreases j, 0, |ms|
  {
    if ms != [] {
      var rest := GetMembers(b, ms[1..], j, old_).value;
      MembersWithinBounds(b, ms[1..], j, old_);
      NamesSpec(ms[1..], ms[0].name);
      forall i | 0 <= i < |ms| - 1 ensures ms[1..][i] == ms[i + 1] {}
      FieldsFitFrame(b.table, ms[1..], VStruct(rest), VStruct(GetMembers(b, ms, j, old_).value));
      ResolveResolved(b.table, ms[0].mtype);
      if Has(j, ms[0].name) {
        DecodeWithinBounds(b, Resolve(b.table, ms[0].mtype), j.members[ms[0].name], FieldOf(old_, ms[0].name));
      }
    }
  }

  lemma {:induction false} FieldsFitFrame(m: Table, ms: seq<Member>, u: Value, v: Value)
    requires u.VStruct? && v.VStruct?
    requires forall k <- Names(ms) :: k in u.fields && k in v.fields && u.fields[k] == v.fields[k]
    ensures FieldsFit(m, ms, u) <==> FieldsFit(m, ms, v)
  {
    if ms != [] { FieldsFitFrame(m, ms[1..], u, v); }
  }

  lemma {:induction false} ElemsWithinBounds(b: Binding, t: Type, js: seq<Json>, inPlace: bool, old_: Value, i: nat)
    requires TableOk(b.table) && Resolve(b.table, t) == t
    requires GetElems(b, t, js, inPlace, old_, i).Some?
    requires b.strictAll ||
      (InitialsFit(b) && (inPlace ==> old_.VArr? && i + |js| == |old_.elems| && ElemsFit(b.table, t, old_.elems[i..])))
    ensures ElemsFit(b.table, t, GetElems(b, t, js, inPlace, old_, i).value) <==> ElemsJsonFit(b.table, t, js)
    decreases js, 0, 0
  {
    if js != [] {
      var target := if inPlace then ElemOf(old_, i) else InitialOf(b, t);
      if !b.strictAll && inPlace { assert old_.elems[i..][1..] == old_.elems[i + 1..]; }
      ElemsWithinBounds(b, t, js[1..], inPlace, old_, i + 1);
      assert GetElems(b, t, js, inPlace, old_, i).value[1..] == GetElems(b, t, js[1..], inPlace, old_, i + 1).value;
      if IsStruct(b.table, t) {
        StructWithinBounds(b, t.fqn, js[0], target);
      } else if IsEnum(b.table, t) {
        EnumWithinBounds(b.table, t, js[0]);
      } else {
        PlainBounds(b.table, t, js[0]);
      }
    }
  }

  // A string of two in a sequence of strings of at most one is accepted.
  lemma ElementBoundsUnchecked(b: Binding)
    ensures var t := TSeq(TString(false, Some(1)), Some(4));
            var v := GetMember(b, t, JArr([JStr("ab")]), VSeq([]));
            v.Some? && !Fits(b.table, t, v.value)
  {
    var t, j := TSeq(TString(false, Some(1)), Some(4)), JStr("ab");
    assert Resolve(b.table, t.elem) == t.elem;
    assert GetElems(b, t.elem, [j][1..], false, VSeq([]), 1) == Some([]);
    assert GetElem(b, t.elem, [j][0], InitialOf(b, t.elem)) == Some(VStr("ab"));
    assert [VStr("ab")] + [] == [VStr("ab")];
    assert GetElems(b, t.elem, [j], false, VSeq([]), 0) == Some([VStr("ab")]);
    assert !PlainFits(b.table, t.elem, VStr("ab"));
  }

  // ---------- Partial JSON ----------

  // A non-empty sequence of member names that leads from struct f through nested structs.
  predicate PathOk(m: Table, f: text, path: seq<text>)
    decreases |path|
  {
    && path != [] && IsStruct(m, TNamed(f))
    && path[0] in Names(m.structs[f])
    && (|path| > 1 ==>
          var t := Resolve(m, MemberType(m.structs[f], path[0]));
          IsStruct(m, t) && PathOk(m, t.fqn, path[1..]))
  }

  function MemberType(ms: seq<Member>, name: text): Type
    requires name in Names(ms)
  {
    if ms[0].name == name then ms[0].mtype else MemberType(ms[1..], name)
  }

  function LeafType(m: Table, f: text, path: seq<text>): Type
    requires PathOk(m, f, path)
    decreases |path|
  {
    var t := Resolve(m, MemberType(m.structs[f], path[0]));
    if |path| == 1 then t else LeafType(m, t.fqn, path[1..])
  }

  function At(v: Value, path: seq<text>): Value
    decreases |path|
  {
    if path == [] then v else At(FieldOf(v, path[0]), path[1..])
  }

  predicate Present(j: Json, path: seq<text>)
    decreases |path|
  {
    path == [] || (Has(j, path[0]) && Present(j.members[path[0]], path[1..]))
  }

  function JsonAt(j: Json, path: seq<text>): Json
    requires Present(j, path)
    decreases |path|
  {
    if path == [] then j else JsonAt(j.members[path[0]], path[1..])
  }

  lemma {:induction false} FieldDecoded(b: Binding, ms: seq<Member>, j: Json, old_: Value, name: text)
    requires MembersOk(ms) && name in Names(ms) && GetMembers(b, ms, j, old_).Some?
    ensures var v := GetMembers(b, ms, j, old_).value[name];
            if Has(j, name) then
              GetMember(b, Resolve(b.table, MemberType(ms, name)), j.members[name], FieldOf(old_, name)) == Some(v)
            else v == FieldOf(old_, name)
  {
    if ms[0].name != name {
      forall i | 0 <= i < |ms| - 1 ensures ms[1..][i] == ms[i + 1] {}
      FieldDecoded(b, ms[1..], j, old_, name);
    } else {
      NamesSpec(ms[1..], name);
    }
  }

  // A path the JSON does not carry keeps its old value, at any depth; one it carries gets the value
  // that the member's own decoder makes of the JSON found there.
  lemma {:induction false} Overlay(b: Binding, f: text, j: Json, old_: Value, path: seq<text>)
    requires TableOk(b.table) && PathOk(b.table, f, path)
    requires GetStruct(b, f, j, old_).Some?
    ensures var v := GetStruct(b, f, j, old_).value;
            if Present(j, path) then
              GetMember(b, LeafType(b.table, f, path), JsonAt(j, path), At(old_, path)) == Some(At(v, path))
            else At(v, path) == At(old_, path)
    decreases |path|
  {
    var ms, name := b.table.structs[f], path[0];
    FieldDecoded(b, ms, j, old_, name);
    assert FieldOf(GetStruct(b, f, j, old_).value, name) == GetMembers(b, ms, j, old_).value[name];
    if |path| == 1 {
      assert path[1..] == [];
      assert At(GetStruct(b, f, j, old_).value, path) == FieldOf(GetStruct(b, f, j, old_).value, name);
      assert At(old_, path) == FieldOf(old_, name);
      assert Has(j, name) ==> Present(j.members[name], path[1..]);
    } else if Has(j, name) {
      var t := Resolve(b.table, MemberType(ms, name));
      Overlay(b, t.fqn, j.members[name], FieldOf(old_, name), path[1..]);
    }
  }

  // Success needs every member that the mode requires, and every member present to be decodable.
  lemma {:induction false} DecodesExactlyWhen(b: Binding, ms: seq<Member>, j: Json, old_: Value)
    ensures GetMembers(b, ms, j, old_).Some? <==>
            forall i :: 0 <= i < |ms| ==>
              if Has(j, ms[i].name)
              then GetMember(b, Resolve(b.table, ms[i].mtype), j.members[ms[i].name], FieldOf(old_, ms[i].name)).Some?
              else !ms[i].isKey && !b.strictAll
  {
    if ms != [] {
      DecodesExactlyWhen(b, ms[1..], j, old_);
      forall i | 0 <= i < |ms| - 1 ensures ms[1..][i] == ms[i + 1] {}
      forall i | 1 <= i < |ms| ensures ms[i] == ms[1..][i - 1] {}
      assert GetField(b, ms[0], j, old_).Some? <==>
        if Has(j, ms[0].name)
        then GetMember(b, Resolve(b.table, ms[0].mtype), j.members[ms[0].name], FieldOf(old_, ms[0].name)).Some?
        else !ms[0].isKey && !b.strictAll;
    }
  }
}
