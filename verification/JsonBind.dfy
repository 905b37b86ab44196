// The JSON encoder and decoder that the generator emits for each struct
// (tools/emit_jsonbind.py, lines 313-464), as functions over the type table.
module JsonBind {
  import opened Wrappers
  import opened JsonTypes

  // strictAll is the default mode "all"; otherwise the mode is "keys".
  // initial gives the sample that T{} constructs for each struct T.
  datatype Binding = Binding(table: Table, strictAll: bool, initial: map<text, Value>)

  const UNKNOWN_ENUM: text := "UNKNOWN_ENUM_VALUE"

  // ---------- Scalars ----------

  function EnumName(es: seq<Enumerator>, n: int): text {
    if es == [] then UNKNOWN_ENUM
    else if es[0].value == n then es[0].name
    else EnumName(es[1..], n)
  }

  function EnumByName(es: seq<Enumerator>, s: text): Option<Value> {
    if es == [] then None
    else if es[0].name == s then Some(VEnum(es[0].value))
    else EnumByName(es[1..], s)
  }

  // Strings are looked up by name; an integer is cast without looking it up.
  function ParseEnum(es: seq<Enumerator>, j: Json): Option<Value> {
    match j
    case JStr(s) => EnumByName(es, s)
    case JInt(n) => Some(VEnum(Cast(W32, true, n)))
    case _ => None
  }

  function CharCode(c: octet): int {
    if c as int < 128 then c as int else c as int - 256
  }

  function GetInteger(w: Width, signed: bool, j: Json): Option<int> {
    match j
    case JInt(n) => Some(Cast(w, signed, n))
    case JFloat(x) => Some(Cast(w, signed, Truncate(x)))
    case JBool(b) => if w == W64 then None else Some(if b then 1 else 0)
    case _ => None
  }

  function GetPrim(p: Prim, j: Json): Option<Value> {
    match p
    case Boolean => if j.JBool? then Some(VBool(j.jb)) else None
    case Character =>
      (match GetInteger(W8, true, j) case Some(n) => Some(VChar((n % 256) as char)) case None => None)
    case Integer(w, signed) =>
      (match GetInteger(w, signed, j) case Some(n) => Some(VInt(n)) case None => None)
    case Floating(native) =>
      match j
      case JFloat(x) => Some(VFloat(x))
      case JInt(n) => Some(VFloat(n as real))
      case JBool(b) => if native then None else Some(VFloat(if b then 1.0 else 0.0))
      case _ => None
  }

  // ---------- What the JSON library does on its own with containers ----------

  function PutPlain(v: Value): Json
    decreases v
  {
    match v
    case VBool(b) => JBool(b)
    case VChar(c) => JInt(CharCode(c))
    case VInt(n) => JInt(n)
    case VFloat(x) => JFloat(x)
    case VStr(s) => JStr(s)
    case VWStr(ws) => JArr(PutWide(ws))
    case VEnum(n) => JInt(n)
    case VSeq(es) => JArr(PutPlains(es))
    case VArr(es) => JArr(PutPlains(es))
    case VStruct(_) => JNull
  }

  function PutPlains(vs: seq<Value>): (r: seq<Json>)
    ensures |r| == |vs|
    decreases vs
  {
    if vs == [] then [] else [PutPlain(vs[0])] + PutPlains(vs[1..])
  }

  function PutWide(ws: seq<int>): (r: seq<Json>)
    ensures |r| == |ws|
  {
    if ws == [] then [] else [JInt(ws[0])] + PutWide(ws[1..])
  }

  function GetWide(js: seq<Json>): (r: Option<seq<int>>)
    ensures r.Some? ==> |r.value| == |js| && forall c <- r.value :: InRange(W32, false, c)
  {
    if js == [] then Some([])
    else match (GetInteger(W32, false, js[0]), GetWide(js[1..]))
         case (Some(c), Some(cs)) => Some([c] + cs)
         case _ => None
  }

  function GetPlain(m: Table, t: Type, j: Json): Option<Value>
    decreases j
  {
    match Resolve(m, t)
    case TPrim(p) => GetPrim(p, j)
    case TString(false, _) => if j.JStr? then Some(VStr(j.js)) else None
    case TString(true, _) =>
      if !j.JArr? then None
      else (match GetWide(j.items) case Some(ws) => Some(VWStr(ws)) case None => None)
    case TNamed(f) =>
      if f !in m.enums then None
      else (match GetInteger(W32, true, j) case Some(n) => Some(VEnum(n)) case None => None)
    case TSeq(e, _) =>
      if !j.JArr? then None
      else (match GetPlains(m, e, j.items, |j.items|) case Some(vs) => Some(VSeq(vs)) case None => None)
    case TArray(e, dims) =>
      if !j.JArr? || |dims| != 1 || |j.items| < dims[0] then None
      else (match GetPlains(m, e, j.items, dims[0]) case Some(vs) => Some(VArr(vs)) case None => None)
    case TUnknown => None
  }

  // The first n items.
  function GetPlains(m: Table, t: Type, js: seq<Json>, n: nat): (r: Option<seq<Value>>)
    requires n <= |js|
    ensures r.Some? ==> |r.value| == n
    decreases js
  {
    if n == 0 then Some([])
    else match (GetPlain(m, t, js[0]), GetPlains(m, t, js[1..], n - 1))
         case (Some(v), Some(vs)) => Some([v] + vs)
         case _ => None
  }

  // ---------- to_json ----------

  datatype Emitted = Put(j: Json) | Skipped | Failed

  function FromOption(o: Option<Json>): Emitted {
    match o case Some(j) => Put(j) case None => Failed
  }

  function ToChars(vs: seq<Value>): (r: Option<text>)
    ensures r.Some? ==> |r.value| == |vs|
  {
    if vs == [] then Some([])
    else match (vs[0], ToChars(vs[1..]))
         case (VChar(c), Some(cs)) => Some([c] + cs)
         case _ => None
  }

  function PutStruct(m: Table, f: text, v: Value): Option<Json>
    decreases v, 2, 0
  {
    if f !in m.structs || !v.VStruct? then None
    else match PutMembers(m, m.structs[f], v)
         case Some(o) => Some(JObj(o))
         case None => None
  }

  function PutMembers(m: Table, ms: seq<Member>, v: Value): Option<map<text, Json>>
    requires v.VStruct?
    decreases v, 1, |ms|
  {
    if ms == [] then Some(map[])
    else if ms[0].name !in v.fields then None
    else
      match (PutMember(m, Resolve(m, ms[0].mtype), v.fields[ms[0].name]), PutMembers(m, ms[1..], v))
      case (Put(j), Some(o)) => Some(o[ms[0].name := j])
      case (Skipped, Some(o)) => Some(o)
      case _ => None
  }

  // t is a resolved type.
  function PutMember(m: Table, t: Type, v: Value): Emitted
    decreases v, 3, 0
  {
    if IsCharSeq(m, t) then
      if !v.VSeq? then Failed
      else (match ToChars(v.elems) case Some(s) => Put(JStr(s)) case None => Failed)
    else match t
      case TPrim(_) => Put(PutPlain(v))
      case TString(_, _) => Put(PutPlain(v))
      case TNamed(f) =>
        if f in m.enums then (if v.VEnum? then Put(JStr(EnumName(m.enums[f], v.e))) else Failed)
        else if f in m.structs then FromOption(PutStruct(m, f, v))
        else Skipped
      case TSeq(e, _) =>
        if !v.VSeq? then Failed
        else (match PutElems(m, Resolve(m, e), v.elems) case Some(js) => Put(JArr(js)) case None => Failed)
      case TArray(e, dims) =>
        if |dims| != 1 then Skipped
        else if !v.VArr? then Failed
        else (match PutElems(m, Resolve(m, e), v.elems) case Some(js) => Put(JArr(js)) case None => Failed)
      case TUnknown => Skipped
  }

  function PutElem(m: Table, t: Type, v: Value): Option<Json>
    decreases v, 3, 0
  {
    if IsEnum(m, t) then (if v.VEnum? then Some(JStr(EnumName(m.enums[t.fqn], v.e))) else None)
    else if IsStruct(m, t) then PutStruct(m, t.fqn, v)
    else Some(PutPlain(v))
  }

  function PutElems(m: Table, t: Type, vs: seq<Value>): (r: Option<seq<Json>>)
    ensures r.Some? ==> |r.value| == |vs|
    decreases vs, 0, 0
  {
    if vs == [] then Some([])
    else match (PutElem(m, t, vs[0]), PutElems(m, t, vs[1..]))
         case (Some(j), Some(js)) => Some([j] + js)
         case _ => None
  }

  // ---------- from_json ----------

  predicate Has(j: Json, name: text) {
    j.JObj? && name in j.members
  }

  // A field, or element, of the sample that is being overwritten.
  function FieldOf(v: Value, name: text): Value {
    if v.VStruct? && name in v.fields then v.fields[name] else VBool(false)
  }

  function ElemOf(v: Value, i: nat): Value {
    if v.VArr? && i < |v.elems| then v.elems[i] else VBool(false)
  }

  function InitialOf(b: Binding, t: Type): Value {
    if t.TNamed? && t.fqn in b.initial then b.initial[t.fqn] else VBool(false)
  }

  function FromChars(s: text): (r: seq<Value>)
    ensures |r| == |s|
  {
    if s == [] then [] else [VChar(s[0])] + FromChars(s[1..])
  }

  function GetStruct(b: Binding, f: text, j: Json, old_: Value): Option<Value>
    decreases j, 2, 0
  {
    if f !in b.table.structs then None
    else match GetMembers(b, b.table.structs[f], j, old_)
         case Some(o) => Some(VStruct(o))
         case None => None
  }

  function Names(ms: seq<Member>): set<text> {
    if ms == [] then {} else {ms[0].name} + Names(ms[1..])
  }

  // The fields of the sample once the members in ms have been handled.
  function GetMembers(b: Binding, ms: seq<Member>, j: Json, old_: Value): (r: Option<map<text, Value>>)
    ensures r.Some? ==> r.value.Keys == Names(ms)
    decreases j, 1, |ms|
  {
    if ms == [] then Some(map[])
    else
      match (GetField(b, ms[0], j, old_), GetMembers(b, ms[1..], j, old_))
      case (Some(v), Some(o)) => Some(o[ms[0].name := v])
      case _ => None
  }

  function GetField(b: Binding, mem: Member, j: Json, old_: Value): Option<Value>
    decreases j, 1, 0
  {
    if !Has(j, mem.name) then
      if mem.isKey || b.strictAll then None else Some(FieldOf(old_, mem.name))
    else
      GetMember(b, Resolve(b.table, mem.mtype), j.members[mem.name], FieldOf(old_, mem.name))
  }

  // t is a resolved type.
  function GetMember(b: Binding, t: Type, j: Json, old_: Value): Option<Value>
    decreases j, 3, 0
  {
    if IsCharSeq(b.table, t) then
      if j.JStr? && Within(|j.js|, t.maxLen) then Some(VSeq(FromChars(j.js))) else None
    else match t
      case TPrim(p) => GetPrim(p, j)
      case TString(false, bound) => if j.JStr? && Within(|j.js|, bound) then Some(VStr(j.js)) else None
      case TString(true, _) =>
        if !j.JArr? then None
        else (match GetWide(j.items) case Some(ws) => Some(VWStr(ws)) case None => None)
      case TNamed(f) =>
        if f in b.table.enums then ParseEnum(b.table.enums[f], j)
        else if f in b.table.structs then GetStruct(b, f, j, old_)
        else None
      case TSeq(e, bound) =>
        if !j.JArr? || !Within(|j.items|, bound) then None
        else
          (match GetElems(b, Resolve(b.table, e), j.items, false, old_, 0)
           case Some(vs) => Some(VSeq(vs))
           case None => None)
      case TArray(e, dims) =>
        if |dims| != 1 || !j.JArr? || |j.items| != dims[0] then None
        else
          (match GetElems(b, Resolve(b.table, e), j.items, true, old_, 0)
           case Some(vs) => Some(VArr(vs))
           case None => None)
      case TUnknown => None
  }

  function GetElem(b: Binding, t: Type, j: Json, old_: Value): Option<Value>
    decreases j, 3, 0
  {
    if IsEnum(b.table, t) then ParseEnum(b.table.enums[t.fqn], j)
    else if IsStruct(b.table, t) then GetStruct(b, t.fqn, j, old_)
    else GetPlain(b.table, t, j)
  }

  // Sequence elements are decoded into new objects, array elements into the ones already there,
  // the first of which is number i.
  function GetElems(b: Binding, t: Type, js: seq<Json>, inPlace: bool, old_: Value, i: nat): (r: Option<seq<Value>>)
    ensures r.Some? ==> |r.value| == |js|
    decreases js, 0, 0
  {
    if js == [] then Some([])
    else
      var target := if inPlace then ElemOf(old_, i) else InitialOf(b, t);
      match (GetElem(b, t, js[0], target), GetElems(b, t, js[1..], inPlace, old_, i + 1))
      case (Some(v), Some(vs)) => Some([v] + vs)
      case _ => None
  }
}
