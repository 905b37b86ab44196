// What each JSON value decodes to, stated as a relation between the two and without the decoder.
module JsonDecodes {
  import opened Wrappers
  import opened JsonTypes
  import opened JsonBind
  import opened JsonRoundTrip
  import opened JsonSample

  // ---------- Numbers ----------

  predicate Holds(w: Width, signed: bool, n: int) {
    match (w, signed)
    case (W8, true) => -128 <= n <= 127
    case (W8, false) => 0 <= n <= 255
    case (W16, true) => -32768 <= n <= 32767
    case (W16, false) => 0 <= n <= 65535
    case (W32, true) => -2147483648 <= n <= 2147483647
    case (W32, false) => 0 <= n <= 4294967295
    case (W64, true) => -9223372036854775808 <= n <= 9223372036854775807
    case (W64, false) => 0 <= n <= 18446744073709551615
  }

  predicate Congruent(w: Width, k: int, n: int) {
    match w
    case W8 => (k - n) % 256 == 0
    case W16 => (k - n) % 65536 == 0
    case W32 => (k - n) % 4294967296 == 0
    case W64 => (k - n) % 18446744073709551616 == 0
  }

  // k is the integer next to x toward zero.
  predicate TowardZero(x: real, k: int) {
    if x >= 0.0 then k as real <= x < k as real + 1.0 else k as real - 1.0 < x <= k as real
  }

  ghost predicate IntegerReads(w: Width, signed: bool, j: Json, n: int) {
    && Holds(w, signed, n)
    && match j
       case JInt(k) => Congruent(w, k, n)
       case JFloat(x) => exists k :: TowardZero(x, k) && Congruent(w, k, n)
       case JBool(b) => w != W64 && n == (if b then 1 else 0)
       case _ => false
  }

  ghost predicate PrimReads(p: Prim, j: Json, v: Value) {
    match p
    case Boolean => j.JBool? && v.VBool? && v.b == j.jb
    case Character => v.VChar? && IntegerReads(W8, false, j, v.c as int)
    case Integer(w, signed) => v.VInt? && IntegerReads(w, signed, j, v.n)
    case Floating(native) =>
      && v.VFloat?
      && match j
         case JFloat(x) => v.x == x
         case JInt(n) => v.x == n as real
         case JBool(b) => !native && v.x == (if b then 1.0 else 0.0)
         case _ => false
  }

  // A name gives the first enumerator of that name, an integer its value without asking whether
  // there is such an enumerator.
  ghost predicate EnumReads(es: seq<Enumerator>, j: Json, v: Value) {
    && v.VEnum?
    && match j
       case JStr(s) =>
         exists i :: 0 <= i < |es| && es[i] == Enumerator(s, v.e) && forall h :: 0 <= h < i ==> es[h].name != s
       case JInt(_) => IntegerReads(W32, true, j, v.e)
       case _ => false
  }

  lemma AtLeastOnce(d: int, m: int)
    requires m > 0
    ensures d >= 1 ==> d * m >= m
    ensures d <= -1 ==> d * m <= -m
  {
  }

  lemma DividesOneWay(k: int, n: int, m: int, q: int)
    requires m > 0 && k == q * m + n && 0 <= n < m
    ensures q == k / m && n == k % m
  {
    assert k == k / m * m + k % m;
    assert (q - k / m) * m == k % m - n;
    AtLeastOnce(q - k / m, m);
  }

  lemma Wrapped(k: int, n: int, m: int, signed: bool)
    requires m > 0 && m % 2 == 0
    ensures (if signed && k % m >= m / 2 then k % m - m else k % m) == n <==>
            (if signed then -(m / 2) <= n < m / 2 else 0 <= n < m) && (k - n) % m == 0
  {
    var u, d := k % m, k - n;
    assert k == k / m * m + u;
    if d % m == 0 {
      assert d == d / m * m;
      if 0 <= n < m { DividesOneWay(k, n, m, d / m); }
      if -m <= n < 0 {
        assert k == (d / m - 1) * m + (n + m);
        DividesOneWay(k, n + m, m, d / m - 1);
      }
    }
    if u == n { DividesOneWay(d, 0, m, k / m); }
    if u - m == n {
      assert d == (k / m + 1) * m + 0;
      DividesOneWay(d, 0, m, k / m + 1);
    }
  }

  lemma CastExactly(w: Width, signed: bool, k: int, n: int)
    ensures Cast(w, signed, k) == n <==> Holds(w, signed, n) && Congruent(w, k, n)
  {
    Wrapped(k, n, Modulus(w), signed);
  }

  lemma TruncateExactly(x: real, k: int)
    ensures Truncate(x) == k <==> TowardZero(x, k)
  {
  }

  lemma IntegerExactly(w: Width, signed: bool, j: Json, n: int)
    ensures GetInteger(w, signed, j) == Some(n) <==> IntegerReads(w, signed, j, n)
  {
    hide Cast, Truncate, Holds, Congruent, TowardZero;
    match j
    case JInt(k) => CastExactly(w, signed, k, n);
    case JFloat(x) =>
      TruncateExactly(x, Truncate(x));
      CastExactly(w, signed, Truncate(x), n);
      forall k | TowardZero(x, k) ensures k == Truncate(x) { TruncateExactly(x, k); }
    case JBool(_) => Bits(w, signed);
    case _ =>
  }

  lemma Bits(w: Width, signed: bool)
    ensures Holds(w, signed, 0) && Holds(w, signed, 1)
  {
  }

  // ---------- Scalars ----------

  lemma SameByte(j: Json)
    ensures GetInteger(W8, true, j).Some? <==> GetInteger(W8, false, j).Some?
    ensures GetInteger(W8, true, j).Some? ==> GetInteger(W8, true, j).value % 256 == GetInteger(W8, false, j).value
  {
    hide Truncate;
  }

  lemma CharExactly(j: Json, v: Value)
    ensures GetPrim(Character, j) == Some(v) <==> PrimReads(Character, j, v)
  {
    hide GetInteger, IntegerReads;
    SameByte(j);
    if v.VChar? { IntegerExactly(W8, false, j, v.c as int); }
    var n := GetInteger(W8, false, j);
    if n.Some? {
      IntegerExactly(W8, false, j, n.value);
      ByteHeld(j, n.value);
      assert n.value as char as int == n.value;
    }
  }

  lemma ByteHeld(j: Json, n: int)
    requires IntegerReads(W8, false, j, n)
    ensures 0 <= n <= 255
  {
  }

  lemma PrimExactly(p: Prim, j: Json, v: Value)
    ensures GetPrim(p, j) == Some(v) <==> PrimReads(p, j, v)
  {
    hide GetInteger, IntegerReads;
    match p
    case Character => CharExactly(j, v);
    case Integer(w, signed) => if v.VInt? { IntegerExactly(w, signed, j, v.n); }
    case _ =>
  }

  lemma {:induction false} NameExactly(es: seq<Enumerator>, s: text, n: int)
    ensures EnumByName(es, s) == Some(VEnum(n)) <==>
            exists i :: 0 <= i < |es| && es[i] == Enumerator(s, n) && forall h :: 0 <= h < i ==> es[h].name != s
  {
    if es != [] {
      NameExactly(es[1..], s, n);
      if es[0].name == s {
        assert es[0] == Enumerator(s, es[0].value);
      } else {
        forall i | 1 <= i < |es| ensures es[i] == es[1..][i - 1] {}
        if i :| 0 <= i < |es| && es[i] == Enumerator(s, n) && forall h :: 0 <= h < i ==> es[h].name != s {
          assert es[1..][i - 1] == Enumerator(s, n);
        }
        if i :| 0 <= i < |es| - 1 && es[1..][i] == Enumerator(s, n) &&
               forall h :: 0 <= h < i ==> es[1..][h].name != s {
          assert es[i + 1] == Enumerator(s, n);
        }
      }
    }
  }

  lemma {:induction false} NameGivesEnum(es: seq<Enumerator>, s: text)
    ensures EnumByName(es, s).Some? ==> EnumByName(es, s).value.VEnum?
  {
    if es != [] { NameGivesEnum(es[1..], s); }
  }

  lemma EnumExactly(es: seq<Enumerator>, j: Json, v: Value)
    ensures ParseEnum(es, j) == Some(v) <==> EnumReads(es, j, v)
  {
    hide EnumByName, Cast, IntegerReads;
    match j
    case JStr(s) =>
      NameGivesEnum(es, s);
      if v.VEnum? { NameExactly(es, s, v.e); }
    case JInt(k) =>
      assert GetInteger(W32, true, j) == Some(Cast(W32, true, k));
      if v.VEnum? { IntegerExactly(W32, true, j, v.e); }
    case _ =>
  }

  // The number of an enumerator decodes to that enumerator.
  lemma EnumNumber(es: seq<Enumerator>, n: int)
    requires EnumOk(es) && Listed(es, n)
    ensures ParseEnum(es, JInt(n)) == Some(VEnum(n))
  {
    EnumExactly(es, JInt(n), VEnum(n));
  }

  // ---------- Containers that the JSON library converts on its own ----------

  predicate Allowed(n: nat, bound: Option<int>) {
    match bound
    case None => true
    case Some(k) => if k >= 0 then n <= k else n <= 18446744073709551616 + k
  }

  ghost predicate WideReads(js: seq<Json>, ws: seq<int>) {
    |ws| == |js| && forall i :: 0 <= i < |js| ==> IntegerReads(W32, false, js[i], ws[i])
  }

  // Of an array the JSON's first elements are taken, as many as it has.
  ghost predicate PlainReads(m: Table, t: Type, j: Json, v: Value)
    decreases j
  {
    match Resolve(m, t)
    case TPrim(p) => PrimReads(p, j, v)
    case TString(false, _) => j.JStr? && v == VStr(j.js)
    case TString(true, _) => j.JArr? && v.VWStr? && WideReads(j.items, v.ws)
    case TNamed(f) => f in m.enums && v.VEnum? && IntegerReads(W32, true, j, v.e)
    case TSeq(e, _) =>
      && j.JArr? && v.VSeq? && |v.elems| == |j.items|
      && forall i :: 0 <= i < |j.items| ==> PlainReads(m, e, j.items[i], v.elems[i])
    case TArray(e, dims) =>
      && j.JArr? && |dims| == 1 && v.VArr? && |v.elems| == dims[0] <= |j.items|
      && forall i :: 0 <= i < dims[0] ==> PlainReads(m, e, j.items[i], v.elems[i])
    case TUnknown => false
  }

  lemma {:induction false} WideExactly(js: seq<Json>, ws: seq<int>)
    ensures GetWide(js) == Some(ws) <==> WideReads(js, ws)
  {
    hide IntegerReads, GetInteger;
    if js != [] && ws != [] {
      WideExactly(js[1..], ws[1..]);
      IntegerExactly(W32, false, js[0], ws[0]);
      forall i | 1 <= i < |js| ensures js[i] == js[1..][i - 1] {}
      forall i | 1 <= i < |ws| ensures ws[i] == ws[1..][i - 1] {}
      assert ws == [ws[0]] + ws[1..];
    }
  }

  lemma {:induction false} PlainExactly(m: Table, t: Type, j: Json, v: Value)
    ensures GetPlain(m, t, j) == Some(v) <==> PlainReads(m, t, j, v)
    decreases j
  {
    hide IntegerReads, GetInteger, PrimReads, GetPrim, WideReads, GetWide;
    match Resolve(m, t)
    case TPrim(p) => PrimExactly(p, j, v);
    case TString(true, _) => if j.JArr? && v.VWStr? { WideExactly(j.items, v.ws); }
    case TNamed(f) => if v.VEnum? { IntegerExactly(W32, true, j, v.e); }
    case TSeq(e, _) => if j.JArr? && v.VSeq? { PlainsExactly(m, e, j.items, |j.items|, v.elems); }
    case TArray(e, dims) =>
      if j.JArr? && |dims| == 1 && v.VArr? && dims[0] <= |j.items| {
        PlainsExactly(m, e, j.items, dims[0], v.elems);
      }
    case _ =>
  }

  lemma {:induction false} PlainsExactly(m: Table, t: Type, js: seq<Json>, n: nat, vs: seq<Value>)
    requires n <= |js|
    ensures GetPlains(m, t, js, n) == Some(vs) <==>
            |vs| == n && forall i :: 0 <= i < n ==> PlainReads(m, t, js[i], vs[i])
    decreases js
  {
    hide PlainReads, GetPlain;
    if n > 0 && |vs| == n {
      PlainExactly(m, t, js[0], vs[0]);
      PlainsExactly(m, t, js[1..], n - 1, vs[1..]);
      forall i | 1 <= i < |js| ensures js[i] == js[1..][i - 1] {}
      forall i | 1 <= i < |vs| ensures vs[i] == vs[1..][i - 1] {}
      assert vs == [vs[0]] + vs[1..];
    }
  }

  // ---------- Members, elements and structs ----------
  // old_ is what the sample holds before.

  // t is a resolved type.
  ghost predicate MemberReads(b: Binding, t: Type, j: Json, old_: Value, v: Value)
    decreases j, 2, 0
  {
    if t.TSeq? && Resolve(b.table, t.elem) == TPrim(Character) then
      && j.JStr? && Allowed(|j.js|, t.maxLen)
      && v.VSeq? && |v.elems| == |j.js| && forall i :: 0 <= i < |j.js| ==> v.elems[i] == VChar(j.js[i])
    else match t
      case TPrim(p) => PrimReads(p, j, v)
      case TString(false, bound) => j.JStr? && Allowed(|j.js|, bound) && v == VStr(j.js)
      case TString(true, _) => j.JArr? && v.VWStr? && WideReads(j.items, v.ws)
      case TNamed(f) =>
        if f in b.table.enums then EnumReads(b.table.enums[f], j, v) else StructReads(b, f, j, old_, v)
      case TSeq(e, bound) =>
        && j.JArr? && Allowed(|j.items|, bound) && v.VSeq? && |v.elems| == |j.items|
        && var r := Resolve(b.table, e);
           forall i :: 0 <= i < |j.items| ==> ElemReads(b, r, j.items[i], InitialOf(b, r), v.elems[i])
      case TArray(e, dims) =>
        && j.JArr? && |dims| == 1 && |j.items| == dims[0] && v.VArr? && |v.elems| == dims[0]
        && var r := Resolve(b.table, e);
           forall i :: 0 <= i < dims[0] ==> ElemReads(b, r, j.items[i], ElemOf(old_, i), v.elems[i])
      case TUnknown => false
  }

  ghost predicate ElemReads(b: Binding, t: Type, j: Json, old_: Value, v: Value)
    decreases j, 2, 0
  {
    if t.TNamed? && t.fqn in b.table.enums then EnumReads(b.table.enums[t.fqn], j, v)
    else if t.TNamed? && t.fqn in b.table.structs then StructReads(b, t.fqn, j, old_, v)
    else PlainReads(b.table, t, j, v)
  }

  ghost predicate FieldReads(b: Binding, mem: Member, j: Json, old_: Value, v: Value)
    decreases j, 0, 0
  {
    if Has(j, mem.name)
    then MemberReads(b, Resolve(b.table, mem.mtype), j.members[mem.name], FieldOf(old_, mem.name), v)
    else !mem.isKey && !b.strictAll && v == FieldOf(old_, mem.name)
  }

  ghost predicate StructReads(b: Binding, f: text, j: Json, old_: Value, v: Value)
    decreases j, 1, 1
  {
    f in b.table.structs && v.VStruct? && FieldsRead(b, b.table.structs[f], j, old_, v.fields)
  }

  ghost predicate FieldsRead(b: Binding, ms: seq<Member>, j: Json, old_: Value, fields: map<text, Value>)
    decreases j, 1, 0
  {
    && fields.Keys == Names(ms)
    && forall i :: 0 <= i < |ms| ==> ms[i].name in fields && FieldReads(b, ms[i], j, old_, fields[ms[i].name])
  }

  predicate StructsOk(m: Table) {
    forall f <- m.structs :: MembersOk(m.structs[f])
  }

  lemma {:induction false} CharsExactly(s: text, vs: seq<Value>)
    ensures FromChars(s) == vs <==> |vs| == |s| && forall i :: 0 <= i < |s| ==> vs[i] == VChar(s[i])
  {
    if s != [] && |vs| == |s| {
      CharsExactly(s[1..], vs[1..]);
      forall i | 1 <= i < |vs| ensures vs[i] == vs[1..][i - 1] && s[i] == s[1..][i - 1] {}
      assert vs == [vs[0]] + vs[1..];
    }
  }

  lemma AllowedExactly(n: nat, bound: Option<int>)
    ensures Within(n, bound) <==> Allowed(n, bound)
  {
  }

  lemma CharSeqUnfold(b: Binding, t: Type, j: Json, old_: Value, v: Value)
    requires IsCharSeq(b.table, t)
    ensures GetMember(b, t, j, old_) == Some(v) <==>
            j.JStr? && Within(|j.js|, t.maxLen) && v.VSeq? && FromChars(j.js) == v.elems
    ensures MemberReads(b, t, j, old_, v) <==>
            && j.JStr? && Allowed(|j.js|, t.maxLen)
            && v.VSeq? && |v.elems| == |j.js| && forall i :: 0 <= i < |j.js| ==> v.elems[i] == VChar(j.js[i])
  {
    hide Within, Allowed, FromChars;
  }

  lemma SeqUnfold(b: Binding, t: Type, j: Json, old_: Value, v: Value)
    requires t.TSeq? && !IsCharSeq(b.table, t)
    ensures var r := Resolve(b.table, t.elem);
            && (GetMember(b, t, j, old_) == Some(v) <==>
                  && j.JArr? && Within(|j.items|, t.maxLen) && v.VSeq?
                  && GetElems(b, r, j.items, false, old_, 0) == Some(v.elems))
            && (MemberReads(b, t, j, old_, v) <==>
                  && j.JArr? && Allowed(|j.items|, t.maxLen) && v.VSeq? && |v.elems| == |j.items|
                  && forall i :: 0 <= i < |j.items| ==> ElemReads(b, r, j.items[i], InitialOf(b, r), v.elems[i]))
  {
    hide Within, Allowed, ElemReads, GetElems, InitialOf;
  }

  lemma ArrayUnfold(b: Binding, t: Type, j: Json, old_: Value, v: Value)
    requires t.TArray?
    ensures var r := Resolve(b.table, t.elem);
            && (GetMember(b, t, j, old_) == Some(v) <==>
                  && |t.dims| == 1 && j.JArr? && |j.items| == t.dims[0] && v.VArr?
                  && GetElems(b, r, j.items, true, old_, 0) == Some(v.elems))
            && (MemberReads(b, t, j, old_, v) <==>
                  && j.JArr? && |t.dims| == 1 && |j.items| == t.dims[0] && v.VArr? && |v.elems| == t.dims[0]
                  && forall i :: 0 <= i < t.dims[0] ==> ElemReads(b, r, j.items[i], ElemOf(old_, i), v.elems[i]))
  {
    hide Within, Allowed, ElemReads, GetElems, InitialOf, ElemOf;
  }

  lemma NamedUnfold(b: Binding, t: Type, j: Json, old_: Value, v: Value)
    requires t.TNamed?
    ensures GetMember(b, t, j, old_) ==
            if t.fqn in b.table.enums then ParseEnum(b.table.enums[t.fqn], j) else GetStruct(b, t.fqn, j, old_)
  {
    hide ParseEnum;
  }

  lemma NamedReadsUnfold(b: Binding, t: Type, j: Json, old_: Value, v: Value)
    requires t.TNamed?
    ensures MemberReads(b, t, j, old_, v) <==>
            if t.fqn in b.table.enums then EnumReads(b.table.enums[t.fqn], j, v) else StructReads(b, t.fqn, j, old_, v)
  {
    hide EnumReads, StructReads;
  }

  lemma WideUnfold(b: Binding, bound: Option<int>, j: Json, old_: Value, v: Value)
    ensures GetMember(b, TString(true, bound), j, old_) == Some(v) <==>
            j.JArr? && v.VWStr? && GetWide(j.items) == Some(v.ws)
    ensures MemberReads(b, TString(true, bound), j, old_, v) <==> j.JArr? && v.VWStr? && WideReads(j.items, v.ws)
  {
    hide WideReads, GetWide;
  }

  lemma NarrowUnfold(b: Binding, bound: Option<int>, j: Json, old_: Value, v: Value)
    ensures GetMember(b, TString(false, bound), j, old_) == Some(v) <==>
            j.JStr? && Within(|j.js|, bound) && v == VStr(j.js)
    ensures MemberReads(b, TString(false, bound), j, old_, v) <==>
            j.JStr? && Allowed(|j.js|, bound) && v == VStr(j.js)
  {
    hide Within, Allowed;
  }

  lemma PrimUnfold(b: Binding, p: Prim, j: Json, old_: Value, v: Value)
    ensures GetMember(b, TPrim(p), j, old_) == GetPrim(p, j)
    ensures MemberReads(b, TPrim(p), j, old_, v) == PrimReads(p, j, v)
  {
    hide PrimReads, GetPrim, Resolve;
  }

  lemma UnknownFails(b: Binding, j: Json, old_: Value, v: Value)
    ensures GetMember(b, TUnknown, j, old_) == None && !MemberReads(b, TUnknown, j, old_, v)
  {
    hide Resolve;
  }

  // Decoding a member succeeds with v exactly when the JSON reads as v.
  lemma {:induction false} MemberExactly(b: Binding, t: Type, j: Json, old_: Value, v: Value)
    requires StructsOk(b.table)
    ensures GetMember(b, t, j, old_) == Some(v) <==> MemberReads(b, t, j, old_, v)
    decreases j, 2, 0
  {
    hide StructsOk, EnumReads, ParseEnum, StructReads, GetStruct, ElemReads, GetElems, Within, Allowed, Resolve,
         MemberReads, GetMember, InitialOf, ElemOf, FromChars, PrimReads, GetPrim, WideReads, GetWide;
    match t
    case TNamed(f) =>
      NamedUnfold(b, t, j, old_, v);
      NamedReadsUnfold(b, t, j, old_, v);
      if f in b.table.enums {
        EnumExactly(b.table.enums[f], j, v);
      } else {
        StructExactly(b, f, j, old_, v);
      }
    case TSeq(e, bound) =>
      if IsCharSeq(b.table, t) {
        CharSeqUnfold(b, t, j, old_, v);
        if j.JStr? && v.VSeq? {
          AllowedExactly(|j.js|, bound);
          CharsExactly(j.js, v.elems);
        }
      } else {
        SeqUnfold(b, t, j, old_, v);
        if j.JArr? && v.VSeq? {
          AllowedExactly(|j.items|, bound);
          ElemsExactly(b, Resolve(b.table, e), j.items, false, old_, 0, v.elems);
        }
      }
    case TArray(e, _) =>
      ArrayUnfold(b, t, j, old_, v);
      if j.JArr? && v.VArr? { ElemsExactly(b, Resolve(b.table, e), j.items, true, old_, 0, v.elems); }
    case TPrim(p) =>
      PrimUnfold(b, p, j, old_, v);
      PrimExactly(p, j, v);
    case TString(false, bound) =>
      NarrowUnfold(b, bound, j, old_, v);
      if j.JStr? { AllowedExactly(|j.js|, bound); }
    case TString(true, bound) =>
      WideUnfold(b, bound, j, old_, v);
      if j.JArr? && v.VWStr? { WideExactly(j.items, v.ws); }
    case TUnknown => UnknownFails(b, j, old_, v);
  }

  lemma ElemUnfold(b: Binding, t: Type, j: Json, old_: Value, v: Value)
    ensures GetElem(b, t, j, old_) ==
              if IsEnum(b.table, t) then ParseEnum(b.table.enums[t.fqn], j)
              else if IsStruct(b.table, t) then GetStruct(b, t.fqn, j, old_)
              else GetPlain(b.table, t, j)
  {
    hide EnumReads, ParseEnum, StructReads, GetStruct, PlainReads, GetPlain;
  }

  lemma EnumElem(b: Binding, t: Type, j: Json, old_: Value, v: Value)
    requires IsEnum(b.table, t)
    ensures ElemReads(b, t, j, old_, v) == EnumReads(b.table.enums[t.fqn], j, v)
  {
    hide EnumReads, StructReads, PlainReads;
  }

  lemma StructElem(b: Binding, t: Type, j: Json, old_: Value, v: Value)
    requires IsStruct(b.table, t)
    ensures ElemReads(b, t, j, old_, v) == StructReads(b, t.fqn, j, old_, v)
  {
    hide EnumReads, StructReads, PlainReads;
  }

  lemma PlainElem(b: Binding, t: Type, j: Json, old_: Value, v: Value)
    requires !IsEnum(b.table, t) && !IsStruct(b.table, t)
    ensures ElemReads(b, t, j, old_, v) == PlainReads(b.table, t, j, v)
  {
    hide EnumReads, StructReads, PlainReads;
  }

  lemma {:induction false} ElemExactly(b: Binding, t: Type, j: Json, old_: Value, v: Value)
    requires StructsOk(b.table)
    ensures GetElem(b, t, j, old_) == Some(v) <==> ElemReads(b, t, j, old_, v)
    decreases j, 2, 0
  {
    hide StructsOk, EnumReads, ParseEnum, StructReads, GetStruct, PlainReads, GetPlain, ElemReads, GetElem;
    ElemUnfold(b, t, j, old_, v);
    if IsEnum(b.table, t) {
      EnumElem(b, t, j, old_, v);
      EnumExactly(b.table.enums[t.fqn], j, v);
    } else if IsStruct(b.table, t) {
      StructElem(b, t, j, old_, v);
      StructExactly(b, t.fqn, j, old_, v);
    } else {
      PlainElem(b, t, j, old_, v);
      PlainExactly(b.table, t, j, v);
    }
  }

  lemma NoElems(b: Binding, t: Type, inPlace: bool, old_: Value, n: nat)
    ensures GetElems(b, t, [], inPlace, old_, n) == Some([])
  {
  }

  lemma ElemsUnfold(b: Binding, t: Type, js: seq<Json>, inPlace: bool, old_: Value, n: nat)
    requires js != []
    ensures GetElems(b, t, js, inPlace, old_, n) ==
            match (GetElem(b, t, js[0], if inPlace then ElemOf(old_, n) else InitialOf(b, t)),
                   GetElems(b, t, js[1..], inPlace, old_, n + 1))
            case (Some(v), Some(vs)) => Some([v] + vs)
            case _ => None
  {
    hide GetElem, ElemOf, InitialOf;
  }

  function Before(b: Binding, t: Type, inPlace: bool, old_: Value, n: nat): Value {
    if inPlace then ElemOf(old_, n) else InitialOf(b, t)
  }

  // Element by element, the first of them number n of the sample.
  ghost predicate ElemsRead(b: Binding, t: Type, js: seq<Json>, inPlace: bool, old_: Value, n: nat, vs: seq<Value>) {
    |vs| == |js| && forall i :: 0 <= i < |js| ==> ElemReads(b, t, js[i], Before(b, t, inPlace, old_, n + i), vs[i])
  }

  lemma ElemsReadUnfold(b: Binding, t: Type, js: seq<Json>, inPlace: bool, old_: Value, n: nat, vs: seq<Value>)
    requires js != [] && vs != []
    ensures ElemsRead(b, t, js, inPlace, old_, n, vs) <==>
            && ElemReads(b, t, js[0], Before(b, t, inPlace, old_, n), vs[0])
            && ElemsRead(b, t, js[1..], inPlace, old_, n + 1, vs[1..])
  {
    hide ElemReads, Before;
    forall i | 1 <= i < |js| ensures js[i] == js[1..][i - 1] && n + i == n + 1 + (i - 1) {}
    forall i | 1 <= i < |vs| ensures vs[i] == vs[1..][i - 1] {}
  }

  lemma {:induction false} ElemsExactly(b: Binding, t: Type, js: seq<Json>, inPlace: bool, old_: Value, n: nat,
                                        vs: seq<Value>)
    requires StructsOk(b.table)
    ensures GetElems(b, t, js, inPlace, old_, n) == Some(vs) <==> ElemsRead(b, t, js, inPlace, old_, n, vs)
    decreases js
  {
    hide StructsOk, ElemReads, GetElem, ElemOf, InitialOf, GetElems;
    if js == [] {
      NoElems(b, t, inPlace, old_, n);
    } else if |vs| == |js| {
      hide ElemsRead;
      ElemsUnfold(b, t, js, inPlace, old_, n);
      ElemsReadUnfold(b, t, js, inPlace, old_, n, vs);
      ElemExactly(b, t, js[0], Before(b, t, inPlace, old_, n), vs[0]);
      ElemsExactly(b, t, js[1..], inPlace, old_, n + 1, vs[1..]);
      assert vs == [vs[0]] + vs[1..];
    }
  }

  lemma {:induction false} FieldExactly(b: Binding, mem: Member, j: Json, old_: Value, v: Value)
    requires StructsOk(b.table)
    ensures GetField(b, mem, j, old_) == Some(v) <==> FieldReads(b, mem, j, old_, v)
    decreases j, 0, 0
  {
    hide StructsOk, MemberReads, GetMember, Resolve;
    if Has(j, mem.name) {
      MemberExactly(b, Resolve(b.table, mem.mtype), j.members[mem.name], FieldOf(old_, mem.name), v);
    }
  }

  lemma StructUnfold(b: Binding, f: text, j: Json, old_: Value, v: Value)
    ensures GetStruct(b, f, j, old_) == Some(v) <==>
            f in b.table.structs && v.VStruct? && GetMembers(b, b.table.structs[f], j, old_) == Some(v.fields)
  {
    hide GetMembers;
  }

  lemma StructReadsUnfold(b: Binding, f: text, j: Json, old_: Value, v: Value)
    ensures StructReads(b, f, j, old_, v) <==>
            f in b.table.structs && v.VStruct? && FieldsRead(b, b.table.structs[f], j, old_, v.fields)
  {
    hide FieldsRead;
  }

  lemma {:induction false} StructExactly(b: Binding, f: text, j: Json, old_: Value, v: Value)
    requires StructsOk(b.table)
    ensures GetStruct(b, f, j, old_) == Some(v) <==> StructReads(b, f, j, old_, v)
    decreases j, 1, 0
  {
    hide FieldsRead, StructReads, GetStruct, GetMembers, MembersOk;
    StructUnfold(b, f, j, old_, v);
    StructReadsUnfold(b, f, j, old_, v);
    if f in b.table.structs && v.VStruct? {
      FieldsExactly(b, b.table.structs[f], j, old_, v.fields);
    }
  }

  lemma {:induction false} FieldsAre(b: Binding, ms: seq<Member>, j: Json, old_: Value, i: nat)
    requires MembersOk(ms) && i < |ms| && GetMembers(b, ms, j, old_).Some?
    ensures ms[i].name in GetMembers(b, ms, j, old_).value
    ensures GetField(b, ms[i], j, old_) == Some(GetMembers(b, ms, j, old_).value[ms[i].name])
  {
    hide GetField, GetMembers;
    GetMembersUnfold(b, ms, j, old_);
    if i > 0 {
      assert forall h :: 0 <= h < |ms| - 1 ==> ms[1..][h] == ms[h + 1];
      FieldsAre(b, ms[1..], j, old_, i - 1);
    }
  }

  lemma FieldsDecoded(b: Binding, ms: seq<Member>, j: Json, old_: Value, fields: map<text, Value>)
    requires MembersOk(ms)
    ensures GetMembers(b, ms, j, old_) == Some(fields) <==>
            && fields.Keys == Names(ms)
            && forall i :: 0 <= i < |ms| ==>
                 ms[i].name in fields && GetField(b, ms[i], j, old_) == Some(fields[ms[i].name])
  {
    hide GetField, GetMembers, Names, MembersOk;
    if GetMembers(b, ms, j, old_) == Some(fields) {
      forall i | 0 <= i < |ms|
        ensures ms[i].name in fields && GetField(b, ms[i], j, old_) == Some(fields[ms[i].name])
      {
        FieldsAre(b, ms, j, old_, i);
      }
    }
    if forall i :: 0 <= i < |ms| ==>
         ms[i].name in fields && GetField(b, ms[i], j, old_) == Some(fields[ms[i].name])
    {
      MembersAre(b, ms, j, old_, fields);
      assert fields.Keys == Names(ms) ==> GetMembers(b, ms, j, old_).value == fields;
    }
  }

  lemma {:induction false} FieldsExactly(b: Binding, ms: seq<Member>, j: Json, old_: Value, fields: map<text, Value>)
    requires StructsOk(b.table) && MembersOk(ms)
    ensures GetMembers(b, ms, j, old_) == Some(fields) <==> FieldsRead(b, ms, j, old_, fields)
    decreases j, 0, 1
  {
    hide StructsOk, FieldReads, GetField, GetMembers, Names, MembersOk;
    FieldsDecoded(b, ms, j, old_, fields);
    forall i | 0 <= i < |ms| && ms[i].name in fields
      ensures GetField(b, ms[i], j, old_) == Some(fields[ms[i].name]) <==>
              FieldReads(b, ms[i], j, old_, fields[ms[i].name])
    {
      FieldExactly(b, ms[i], j, old_, fields[ms[i].name]);
    }
  }
}
