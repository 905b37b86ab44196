// The decoder as the generator emits it: writing into a sample, field by field
// (tools/emit_jsonbind.py, lines 390-463), and the numbering of enumerators (lines 71-77).
module JsonSample {
  import opened Wrappers
  import opened JsonTypes
  import opened JsonBind
  import opened JsonRoundTrip

  lemma {:induction false} NamesIn(ms: seq<Member>, i: nat)
    requires i < |ms|
    ensures ms[i].name in Names(ms)
  {
    if i > 0 { NamesIn(ms[1..], i - 1); }
  }

  lemma GetMembersUnfold(b: Binding, ms: seq<Member>, j: Json, old_: Value)
    requires ms != []
    ensures GetMembers(b, ms, j, old_) ==
            match (GetField(b, ms[0], j, old_), GetMembers(b, ms[1..], j, old_))
            case (Some(v), Some(o)) => Some(o[ms[0].name := v])
            case _ => None
  {
    hide GetField;
  }

  // The decoded fields are those whose members all decode.
  lemma {:induction false} MembersAre(b: Binding, ms: seq<Member>, j: Json, old_: Value, fields: map<text, Value>)
    requires MembersOk(ms)
    requires forall i :: 0 <= i < |ms| ==>
      ms[i].name in fields && GetField(b, ms[i], j, old_) == Some(fields[ms[i].name])
    ensures GetMembers(b, ms, j, old_).Some?
    ensures forall name :: name in Names(ms) ==>
      name in fields && GetMembers(b, ms, j, old_).value[name] == fields[name]
    decreases |ms|
  {
    hide GetField, GetMembers;
    if ms == [] {
      NoMembers(b, j, old_);
    } else {
      assert forall i :: 0 <= i < |ms[1..]| ==> ms[1..][i] == ms[i + 1];
      MembersAre(b, ms[1..], j, old_, fields);
      GetMembersUnfold(b, ms, j, old_);
    }
  }

  lemma NoMembers(b: Binding, j: Json, old_: Value)
    ensures GetMembers(b, [], j, old_) == Some(map[])
  {
  }

  lemma {:induction false} MembersFail(b: Binding, ms: seq<Member>, j: Json, old_: Value, k: nat)
    requires k < |ms| && GetField(b, ms[k], j, old_).None?
    ensures GetMembers(b, ms, j, old_).None?
    decreases k
  {
    hide GetField;
    if k > 0 { MembersFail(b, ms[1..], j, old_, k - 1); }
  }

  // The first i members have their new values, the others their old ones.
  predicate Decoded(b: Binding, ms: seq<Member>, j: Json, before: map<text, Value>, after: map<text, Value>, i: nat) {
    && i <= |ms|
    && (forall h :: 0 <= h < i ==>
          ms[h].name in after && GetField(b, ms[h], j, VStruct(before)) == Some(after[ms[h].name]))
    && (forall h :: i <= h < |ms| ==>
          ms[h].name in before && ms[h].name in after && after[ms[h].name] == before[ms[h].name])
  }

  // Decoding failed at member k.
  predicate Stopped(b: Binding, ms: seq<Member>, j: Json, before: map<text, Value>, after: map<text, Value>, k: nat) {
    && k < |ms| && GetField(b, ms[k], j, VStruct(before)).None?
    && (forall h :: 0 <= h < k ==>
          ms[h].name in after && GetField(b, ms[h], j, VStruct(before)) == Some(after[ms[h].name]))
    && (forall h :: k < h < |ms| ==>
          ms[h].name in before && ms[h].name in after && after[ms[h].name] == before[ms[h].name])
  }

  lemma DecodedNone(b: Binding, ms: seq<Member>, j: Json, before: map<text, Value>)
    requires before.Keys == Names(ms)
    ensures Decoded(b, ms, j, before, before, 0)
  {
    hide GetField, Names;
    forall h | 0 <= h < |ms| ensures ms[h].name in before { NamesIn(ms, h); }
  }

  lemma DecodedNext(b: Binding, ms: seq<Member>, j: Json, before: map<text, Value>, after: map<text, Value>,
                                       i: nat, v: Value)
    requires MembersOk(ms) && i < |ms| && Decoded(b, ms, j, before, after, i)
    ensures GetField(b, ms[i], j, VStruct(before)) == Some(v) ==>
              Decoded(b, ms, j, before, after[ms[i].name := v], i + 1)
    ensures GetField(b, ms[i], j, VStruct(before)).None? ==> Stopped(b, ms, j, before, after[ms[i].name := v], i)
  {
    hide GetField;
  }

  lemma DecodedAll(b: Binding, f: text, j: Json, before: map<text, Value>, after: map<text, Value>)
    requires f in b.table.structs && MembersOk(b.table.structs[f]) && after.Keys == Names(b.table.structs[f])
    requires Decoded(b, b.table.structs[f], j, before, after, |b.table.structs[f]|)
    ensures GetStruct(b, f, j, VStruct(before)) == Some(VStruct(after))
  {
    hide GetField, MembersOk, Names;
    MembersAre(b, b.table.structs[f], j, VStruct(before), after);
    assert GetMembers(b, b.table.structs[f], j, VStruct(before)).value == after;
  }

  lemma StoppedFails(b: Binding, f: text, j: Json, before: map<text, Value>, after: map<text, Value>, k: nat)
    requires f in b.table.structs && Stopped(b, b.table.structs[f], j, before, after, k)
    ensures GetStruct(b, f, j, VStruct(before)).None?
  {
    hide GetField;
    MembersFail(b, b.table.structs[f], j, VStruct(before), k);
  }

  class Sample {
    var fields: map<text, Value>

    constructor (initial: map<text, Value>)
      ensures fields == initial
    {
      fields := initial;
    }

    // Members are written as they decode. When one fails those before it have their new values, and
    // those after it their old ones; partial is whatever the failing member itself is left as.
    method FromJson(b: Binding, f: text, j: Json, partial: Value) returns (ok: bool)
      requires f in b.table.structs && MembersOk(b.table.structs[f]) && fields.Keys == Names(b.table.structs[f])
      modifies this
      ensures ok <==> GetStruct(b, f, j, VStruct(old(fields))).Some?
      ensures ok ==> Some(VStruct(fields)) == GetStruct(b, f, j, VStruct(old(fields)))
      ensures !ok ==> exists k :: Stopped(b, b.table.structs[f], j, old(fields), fields, k)
      ensures fields.Keys == old(fields.Keys)
    {
      hide GetField, Names, MembersOk, Decoded, Stopped, GetStruct;
      var ms := b.table.structs[f];
      DecodedNone(b, ms, j, fields);
      for i := 0 to |ms|
        invariant fields.Keys == old(fields.Keys)
        invariant Decoded(b, ms, j, old(fields), fields, i)
      {
        OwnField(b, ms, j, old(fields), fields, i);
        var v := GetField(b, ms[i], j, VStruct(fields));
        if v.None? {
          DecodedNext(b, ms, j, old(fields), fields, i, partial);
          fields := fields[ms[i].name := partial];
          StoppedFails(b, f, j, old(fields), fields, i);
          return false;
        }
        DecodedNext(b, ms, j, old(fields), fields, i, v.value);
        fields := fields[ms[i].name := v.value];
      }
      DecodedAll(b, f, j, old(fields), fields);
      return true;
    }
  }

  // Decoding a member looks at its own field of the sample only, and that has not been written yet.
  lemma OwnField(b: Binding, ms: seq<Member>, j: Json, before: map<text, Value>, after: map<text, Value>, i: nat)
    requires Decoded(b, ms, j, before, after, i) && i < |ms|
    ensures GetField(b, ms[i], j, VStruct(after)) == GetField(b, ms[i], j, VStruct(before))
    ensures ms[i].name in after
  {
    OnlyOwnField(b, ms[i], j, VStruct(after), VStruct(before));
    hide GetField;
  }

  lemma OnlyOwnField(b: Binding, mem: Member, j: Json, u: Value, v: Value)
    requires FieldOf(u, mem.name) == FieldOf(v, mem.name)
    ensures GetField(b, mem, j, u) == GetField(b, mem, j, v)
  {
    hide GetMember;
  }

  // ---------- Enumerators ----------

  // An enumerator of the XML: its name, and its value if it has one.
  datatype Declared = Declared(name: text, value: Option<int>)

  function Numbered(ds: seq<Declared>, auto: int): (r: seq<Enumerator>)
    ensures |r| == |ds|
  {
    if ds == [] then []
    else
      var v := if ds[0].value.Some? then ds[0].value.value else auto;
      [Enumerator(ds[0].name, v)] + Numbered(ds[1..], v + 1)
  }

  method ParseEnumerators(ds: seq<Declared>) returns (out: seq<Enumerator>)
    ensures out == Numbered(ds, 0)
  {
    out := [];
    var auto := 0;
    for i := 0 to |ds|
      invariant out + Numbered(ds[i..], auto) == Numbered(ds, 0)
    {
      assert ds[i..][1..] == ds[i + 1..];
      var v := if ds[i].value.Some? then ds[i].value.value else auto;
      ghost var rest := Numbered(ds[i + 1..], v + 1);
      assert out + ([Enumerator(ds[i].name, v)] + rest) == out + [Enumerator(ds[i].name, v)] + rest;
      out := out + [Enumerator(ds[i].name, v)];
      auto := v + 1;
    }
  }

  // Every value given is not below the one counted up to it.
  predicate Rising(ds: seq<Declared>, auto: int) {
    ds == [] ||
    var v := if ds[0].value.Some? then ds[0].value.value else auto;
    v >= auto && Rising(ds[1..], v + 1)
  }

  predicate Increasing(es: seq<Enumerator>) {
    forall i, j :: 0 <= i < j < |es| ==> es[i].value < es[j].value
  }

  lemma {:induction false} StepsApart(es: seq<Enumerator>)
    requires Increasing(es)
    ensures forall i :: 0 <= i < |es| ==> es[i].value >= es[0].value + i
    decreases |es|
  {
    if es != [] {
      var n := |es| - 1;
      assert forall i, j :: 0 <= i < j < n ==> es[..n][i].value < es[..n][j].value;
      StepsApart(es[..n]);
      assert forall i :: 0 <= i < n ==> es[i] == es[..n][i];
      if n > 0 { assert es[n - 1].value < es[n].value; }
    }
  }

  lemma FirstIncreases(e: Enumerator, rest: seq<Enumerator>)
    ensures Increasing([e] + rest) <==> Increasing(rest) && forall i :: 0 <= i < |rest| ==> e.value < rest[i].value
  {
    var all := [e] + rest;
    assert forall i :: 0 < i < |all| ==> all[i] == rest[i - 1];
    if Increasing(all) {
      forall i, j | 0 <= i < j < |rest| ensures rest[i].value < rest[j].value {
        assert all[i + 1].value < all[j + 1].value;
      }
      forall i | 0 <= i < |rest| ensures e.value < rest[i].value { assert all[0].value < all[i + 1].value; }
    }
  }

  predicate AtLeast(es: seq<Enumerator>, auto: int) {
    forall i :: 0 <= i < |es| ==> es[i].value >= auto + i
  }

  lemma AtLeastFirst(e: Enumerator, rest: seq<Enumerator>, auto: int)
    ensures e.value >= auto && AtLeast(rest, e.value + 1) ==> AtLeast([e] + rest, auto)
    ensures AtLeast([e] + rest, auto) ==> e.value >= auto
    ensures AtLeast(rest, e.value + 1) ==> forall i :: 0 <= i < |rest| ==> e.value < rest[i].value
  {
    var all := [e] + rest;
    assert all[0] == e;
    forall i | 0 < i < |all| ensures all[i] == rest[i - 1] {}
  }

  lemma AboveFirst(rest: seq<Enumerator>, v: int)
    requires Increasing(rest) && (rest != [] ==> v < rest[0].value)
    ensures AtLeast(rest, v + 1)
  {
    hide Increasing;
    StepsApart(rest);
  }

  lemma FirstAtLeast(e: Enumerator, rest: seq<Enumerator>, auto: int)
    ensures Increasing([e] + rest) && AtLeast([e] + rest, auto) <==>
            e.value >= auto && Increasing(rest) && AtLeast(rest, e.value + 1)
  {
    hide Increasing, AtLeast;
    FirstIncreases(e, rest);
    AtLeastFirst(e, rest, auto);
    if Increasing([e] + rest) { AboveFirst(rest, e.value); }
  }

  lemma NumberedStep(ds: seq<Declared>, auto: int)
    requires ds != []
    ensures var v := if ds[0].value.Some? then ds[0].value.value else auto;
            && Numbered(ds, auto) == [Enumerator(ds[0].name, v)] + Numbered(ds[1..], v + 1)
            && (Rising(ds, auto) <==> v >= auto && Rising(ds[1..], v + 1))
  {
  }

  // Which is exactly when the values increase from the automatic one on.
  lemma {:induction false} RisingIncreases(ds: seq<Declared>, auto: int)
    ensures Rising(ds, auto) <==> Increasing(Numbered(ds, auto)) && AtLeast(Numbered(ds, auto), auto)
    decreases ds
  {
    hide Increasing, AtLeast, Numbered, Rising;
    if ds == [] {
      RisingNone(auto);
    } else {
      var v := if ds[0].value.Some? then ds[0].value.value else auto;
      NumberedStep(ds, auto);
      RisingIncreases(ds[1..], v + 1);
      FirstAtLeast(Enumerator(ds[0].name, v), Numbered(ds[1..], v + 1), auto);
    }
  }

  lemma RisingNone(auto: int)
    ensures Rising([], auto) && Increasing(Numbered([], auto)) && AtLeast(Numbered([], auto), auto)
  {
  }

  predicate NamesDiffer(ds: seq<Declared>) {
    forall i, j :: 0 <= i < j < |ds| ==> ds[i].name != ds[j].name
  }

  lemma {:induction false} NumberedNames(ds: seq<Declared>, auto: int)
    ensures forall i :: 0 <= i < |ds| ==> Numbered(ds, auto)[i].name == ds[i].name
  {
    if ds != [] {
      var v := if ds[0].value.Some? then ds[0].value.value else auto;
      NumberedNames(ds[1..], v + 1);
      assert forall i :: 0 < i < |ds| ==> ds[i] == ds[1..][i - 1];
    }
  }

  // Such an enum is one that the round trip holds for, exactly when its names differ and its last
  // value is a machine integer.
  lemma RisingRoundTrips(ds: seq<Declared>)
    requires Rising(ds, 0)
    ensures EnumOk(Numbered(ds, 0)) <==>
            NamesDiffer(ds) && (ds != [] ==> InRange(W32, true, Numbered(ds, 0)[|ds| - 1].value))
  {
    hide Numbered, Rising;
    RisingIncreases(ds, 0);
    NumberedNames(ds, 0);
  }
}
