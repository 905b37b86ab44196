// The type table that the binding generator builds from IDL, with the values and the JSON it
// converts between (tools/emit_jsonbind.py, lines 25-68 and 225-243).
module JsonTypes {
  import opened Wrappers

  // A std::string is a sequence of bytes.
  type octet = c: char | c as int < 256 witness 'a'
  type text = seq<octet>

  datatype Width = W8 | W16 | W32 | W64

  // native: the JSON library's own floating type, double; float and long double are not.
  datatype Prim = Boolean | Character | Integer(width: Width, signed: bool) | Floating(native: bool)

  datatype Type =
    | TPrim(prim: Prim)
    | TString(wide: bool, maxLen: Option<int>)
    | TNamed(fqn: text)
    | TSeq(elem: Type, maxLen: Option<int>)
    | TArray(elem: Type, dims: seq<nat>)
    | TUnknown

  datatype Member = Member(name: text, mtype: Type, isKey: bool)
  datatype Enumerator = Enumerator(name: text, value: int)

  datatype Table = Table(enums: map<text, seq<Enumerator>>,
                         structs: map<text, seq<Member>>,
                         typedefs: map<text, Type>)

  // What the generated C++ fields can hold.
  datatype Value =
    | VBool(b: bool)
    | VChar(c: octet)
    | VInt(n: int)
    | VFloat(x: real)
    | VStr(s: text)
    | VWStr(ws: seq<int>)
    | VEnum(e: int)
    | VSeq(elems: seq<Value>)
    | VArr(elems: seq<Value>)
    | VStruct(fields: map<text, Value>)

  datatype Json =
    | JNull
    | JBool(jb: bool)
    | JInt(jn: int)
    | JFloat(jx: real)
    | JStr(js: text)
    | JArr(items: seq<Json>)
    | JObj(members: map<text, Json>)

  // ---------- Alias resolution ----------

  // Follows an alias chain, giving up when an alias is met a second time.
  function ResolveFrom(m: Table, t: Type, seen: set<text>): (r: Option<Type>)
    ensures r.Some? && r.value.TNamed? ==> r.value.fqn !in m.typedefs
    decreases m.typedefs.Keys - seen
  {
    if t.TNamed? && t.fqn in m.typedefs then
      if t.fqn in seen then None
      else ResolveFrom(m, m.typedefs[t.fqn], seen + {t.fqn})
    else Some(t)
  }

  // An endless alias chain makes the generator run forever; no bindings exist for such a type.
  function Resolve(m: Table, t: Type): (r: Type)
    ensures r.TNamed? ==> r.fqn !in m.typedefs
    ensures ResolveFrom(m, t, {}).None? ==> r.TUnknown?
  {
    match ResolveFrom(m, t, {}) case Some(u) => u case None => TUnknown
  }

  lemma ResolveResolved(m: Table, t: Type)
    ensures Resolve(m, Resolve(m, t)) == Resolve(m, t)
  {
  }

  // The generator's own loop. It ends exactly on the chains that do not come back to an alias.
  method ResolveLoop(m: Table, t: Type) returns (r: Type)
    requires ResolveFrom(m, t, {}).Some?
    ensures r == Resolve(m, t)
    ensures r.TNamed? ==> r.fqn !in m.typedefs
  {
    r := t;
    ghost var seen: set<text> := {};
    while r.TNamed? && r.fqn in m.typedefs
      invariant ResolveFrom(m, r, seen) == ResolveFrom(m, t, {})
      decreases m.typedefs.Keys - seen
    {
      seen := seen + {r.fqn};
      r := m.typedefs[r.fqn];
    }
  }

  predicate IsEnum(m: Table, t: Type) {
    t.TNamed? && t.fqn in m.enums
  }

  predicate IsStruct(m: Table, t: Type) {
    t.TNamed? && t.fqn !in m.enums && t.fqn in m.structs
  }

  predicate IsCharSeq(m: Table, t: Type) {
    t.TSeq? && Resolve(m, t.elem) == TPrim(Character)
  }

  // ---------- Bounds and machine integers ----------

  // The emitted bound check compares a size_t with the literal, so a negative bound never fails.
  predicate Within(n: nat, bound: Option<int>) {
    bound.Some? ==> n <= (if bound.value < 0 then bound.value + 0x1_0000_0000_0000_0000 else bound.value)
  }

  function Modulus(w: Width): (r: int) ensures r > 0 && r % 2 == 0 {
    match w
    case W8 => 0x100
    case W16 => 0x1_0000
    case W32 => 0x1_0000_0000
    case W64 => 0x1_0000_0000_0000_0000
  }

  predicate InRange(w: Width, signed: bool, n: int) {
    if signed then -(Modulus(w) / 2) <= n < Modulus(w) / 2 else 0 <= n < Modulus(w)
  }

  // static_cast to a machine integer.
  function Cast(w: Width, signed: bool, n: int): (r: int)
    ensures InRange(w, signed, r)
    ensures InRange(w, signed, n) ==> r == n
  {
    var u := n % Modulus(w);
    if signed && u >= Modulus(w) / 2 then u - Modulus(w) else u
  }

  function Truncate(x: real): int {
    if x >= 0.0 then x.Floor else -((-x).Floor)
  }
}
