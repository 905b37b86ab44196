// The two generators' views of which topic types exist (tools/emit_autoreg.py, lines 20-52, and
// tools/emit_jsonbind.py, lines 34, 194-223, 228 and 466-471).
module TypeNames {
  import opened Text

  datatype Tag = Module | Struct | Enum | Typedef | Other

  // An XML element: name is "" when it has none; members counts the members parsed from a struct.
  datatype Node = Node(tag: Tag, name: string, members: nat, kids: seq<Node>)

  const SEP := "::"

  function Join(parts: seq<string>): string {
    if parts == [] then "" else if |parts| == 1 then parts[0] else parts[0] + SEP + Join(parts[1..])
  }

  // The last part of a name split at the separators.
  function LastPart(s: string): string
    decreases |s|
  {
    match Find(s, SEP) case None => s case Some(i) => LastPart(s[i + 2..])
  }

  predicate IsTopicName(name: string): (r: bool)
    ensures r <==> "C_" <= name
  {
    |name| >= 2 && name[0] == 'C' && name[1] == '_'
  }

  function Filled(ns: seq<string>): seq<string> {
    if ns == [] then [] else (if ns[0] == "" then [] else [ns[0]]) + Filled(ns[1..])
  }

  function Fqn(ns: seq<string>): string { Join(Filled(ns)) }

  // ---------- emit_autoreg: depth first with one shared stack ----------

  function Collected(n: Node, stack: seq<string>): seq<(string, string)>
    decreases n, 1
  {
    if n.tag == Module && n.name != "" then CollectedAll(n.kids, stack + [n.name])
    else if n.tag == Struct && n.name != "" then [(n.name, Join(stack + [n.name]))] + CollectedAll(n.kids, stack)
    else CollectedAll(n.kids, stack)
  }

  function CollectedAll(ns: seq<Node>, stack: seq<string>): seq<(string, string)>
    decreases ns, 0
  {
    if ns == [] then [] else Collected(ns[0], stack) + CollectedAll(ns[1..], stack)
  }

  lemma {:induction false} CollectedMore(ns: seq<Node>, n: Node, stack: seq<string>)
    ensures CollectedAll(ns + [n], stack) == CollectedAll(ns, stack) + Collected(n, stack)
    decreases ns
  {
    hide Collected;
    if ns == [] {
      assert ns + [n] == [n];
      assert CollectedAll([n], stack) == Collected(n, stack) + CollectedAll([], stack);
    } else {
      assert (ns + [n])[1..] == ns[1..] + [n];
      CollectedMore(ns[1..], n, stack);
    }
  }

  class Collector {
    var stack: seq<string>
    var out: seq<(string, string)>

    constructor ()
      ensures stack == [] && out == []
    {
      stack, out := [], [];
    }

    // Whatever is pushed on the way down is popped on the way up.
    method Dfs(n: Node)
      modifies this
      ensures stack == old(stack) && out == old(out) + Collected(n, old(stack))
      decreases n, 1
    {
      if n.tag == Module {
        if n.name != "" {
          stack := stack + [n.name];
          DfsAll(n.kids);
          stack := stack[..|stack| - 1];
          return;
        }
      }
      if n.tag == Struct {
        if n.name != "" {
          var fqn := if stack != [] then Join(stack + [n.name]) else n.name;
          assert stack == [] ==> stack + [n.name] == [n.name];
          out := out + [(n.name, fqn)];
        }
        DfsAll(n.kids);
        return;
      }
      DfsAll(n.kids);
    }

    method DfsAll(kids: seq<Node>)
      modifies this
      ensures stack == old(stack) && out == old(out) + CollectedAll(kids, old(stack))
      decreases kids, 0
    {
      hide Collected;
      for i := 0 to |kids|
        invariant stack == old(stack) && out == old(out) + CollectedAll(kids[..i], old(stack))
      {
        Dfs(kids[i]);
        CollectedMore(kids[..i], kids[i], stack);
        assert kids[..i] + [kids[i]] == kids[..i + 1];
      }
      assert kids[..|kids|] == kids;
    }
  }

  // The topics, each once, in the order in which they were met.
  method FilterTopics(all: seq<(string, string)>) returns (topics: seq<string>)
    ensures forall i, j :: 0 <= i < j < |topics| ==> topics[i] != topics[j]
    ensures forall f :: f in topics <==> exists name :: (name, f) in all && IsTopicName(name)
  {
    topics := [];
    var seen: set<string> := {};
    for i := 0 to |all|
      invariant forall f :: f in seen <==> f in topics
      invariant forall j, k :: 0 <= j < k < |topics| ==> topics[j] != topics[k]
      invariant forall f :: f in topics <==> exists name :: (name, f) in all[..i] && IsTopicName(name)
    {
      var (name, fqn) := all[i];
      assert all[..i + 1] == all[..i] + [(name, fqn)];
      if !IsTopicName(name) { continue; }
      if fqn in seen { continue; }
      seen := seen + {fqn};
      topics := topics + [fqn];
    }
    assert all[..|all|] == all;
  }

  // ---------- emit_jsonbind: the namespace passed down ----------

  // Structs met, with their member counts; nothing below an enum, a typedef or a struct is looked at.
  function Walked(n: Node, ns: seq<string>): seq<(string, nat)>
    decreases n, 1
  {
    if n.tag == Module then WalkedAll(n.kids, ns + [n.name])
    else if n.tag == Enum || n.tag == Typedef then []
    else if n.tag == Struct then [(Fqn(ns + [n.name]), n.members)]
    else WalkedAll(n.kids, ns)
  }

  function WalkedAll(nodes: seq<Node>, ns: seq<string>): seq<(string, nat)>
    decreases nodes, 0
  {
    if nodes == [] then [] else Walked(nodes[0], ns) + WalkedAll(nodes[1..], ns)
  }

  // Of several definitions the one with the most members stays.
  function Merged(structs: map<string, nat>, found: seq<(string, nat)>): (r: map<string, nat>)
    decreases found
  {
    if found == [] then structs
    else
      var (f, n) := found[0];
      Merged(if f !in structs || n > structs[f] then structs[f := n] else structs, found[1..])
  }

  lemma {:induction false} MergedConcat(structs: map<string, nat>, a: seq<(string, nat)>, b: seq<(string, nat)>)
    ensures Merged(structs, a + b) == Merged(Merged(structs, a), b)
    decreases a
  {
    if a == [] {
      assert a + b == b;
    } else {
      assert (a + b)[1..] == a[1..] + b;
      var (f, n) := a[0];
      MergedConcat(if f !in structs || n > structs[f] then structs[f := n] else structs, a[1..], b);
    }
  }

  lemma {:induction false} MergedKeys(structs: map<string, nat>, found: seq<(string, nat)>)
    ensures forall f :: f in Merged(structs, found) <==> f in structs || exists n :: (f, n) in found
    decreases found
  {
    if found != [] {
      var (g, m) := found[0];
      var structs' := if g !in structs || m > structs[g] then structs[g := m] else structs;
      MergedKeys(structs', found[1..]);
      forall f ensures f in Merged(structs, found) <==> f in structs || exists n :: (f, n) in found {
        assert f in structs' <==> f in structs || f == g;
        if n :| (f, n) in found[1..] { assert (f, n) in found; }
        if n :| (f, n) in found {
          if f != g { assert (f, n) in found[1..]; }
        }
        if f == g { assert (f, m) in found; }
      }
    }
  }

  class Model {
    var structs: map<string, nat>

    constructor ()
      ensures structs == map[]
    {
      structs := map[];
    }

    method Walk(n: Node, ns: seq<string>)
      modifies this
      ensures structs == Merged(old(structs), Walked(n, ns))
      decreases n, 1
    {
      var inner := if n.tag == Module then ns + [n.name] else ns;
      if n.tag == Enum { return; }
      if n.tag == Typedef { return; }
      if n.tag == Struct {
        var f := Fqn(ns + [n.name]);
        assert [(f, n.members)][1..] == [];
        if f !in structs || n.members > structs[f] { structs := structs[f := n.members]; }
        return;
      }
      WalkAll(n.kids, inner);
    }

    method WalkAll(nodes: seq<Node>, ns: seq<string>)
      modifies this
      ensures structs == Merged(old(structs), WalkedAll(nodes, ns))
      decreases nodes, 0
    {
      hide Walked, Merged;
      MergedNone(structs);
      for i := 0 to |nodes|
        invariant structs == Merged(old(structs), WalkedAll(nodes[..i], ns))
      {
        Walk(nodes[i], ns);
        WalkedMore(nodes[..i], nodes[i], ns);
        MergedConcat(old(structs), WalkedAll(nodes[..i], ns), Walked(nodes[i], ns));
        assert nodes[..i] + [nodes[i]] == nodes[..i + 1];
      }
      assert nodes[..|nodes|] == nodes;
    }
  }

  lemma MergedNone(structs: map<string, nat>)
    ensures Merged(structs, []) == structs
  {
  }

  lemma {:induction false} WalkedMore(nodes: seq<Node>, n: Node, ns: seq<string>)
    ensures WalkedAll(nodes + [n], ns) == WalkedAll(nodes, ns) + Walked(n, ns)
    decreases nodes
  {
    hide Walked;
    if nodes == [] {
      assert nodes + [n] == [n];
      assert WalkedAll([n], ns) == Walked(n, ns) + WalkedAll([], ns);
    } else {
      assert (nodes + [n])[1..] == nodes[1..] + [n];
      WalkedMore(nodes[1..], n, ns);
    }
  }

  // ---------- They agree ----------

  predicate NoStructs(n: Node)
    decreases n
  {
    n.tag != Struct && forall i :: 0 <= i < |n.kids| ==> NoStructs(n.kids[i])
  }

  predicate Identifier(name: string) { ':' !in name }

  // Structs are named and stand in modules, not inside other definitions.
  predicate Tidy(n: Node)
    decreases n
  {
    match n.tag
    case Struct => n.name != "" && Identifier(n.name) && forall i :: 0 <= i < |n.kids| ==> NoStructs(n.kids[i])
    case Enum => forall i :: 0 <= i < |n.kids| ==> NoStructs(n.kids[i])
    case Typedef => forall i :: 0 <= i < |n.kids| ==> NoStructs(n.kids[i])
    case Module => Identifier(n.name) && forall i :: 0 <= i < |n.kids| ==> Tidy(n.kids[i])
    case Other => forall i :: 0 <= i < |n.kids| ==> Tidy(n.kids[i])
  }

  predicate TidyAll(nodes: seq<Node>) {
    forall i :: 0 <= i < |nodes| ==> Tidy(nodes[i])
  }

  function Names(found: seq<(string, nat)>): seq<string> {
    if found == [] then [] else [found[0].0] + Names(found[1..])
  }

  function FullNames(found: seq<(string, string)>): seq<string> {
    if found == [] then [] else [found[0].1] + FullNames(found[1..])
  }

  lemma {:induction false} NamesConcat(a: seq<(string, nat)>, b: seq<(string, nat)>)
    ensures Names(a + b) == Names(a) + Names(b)
    decreases a
  {
    if a == [] {
      assert a + b == b;
    } else {
      assert (a + b)[1..] == a[1..] + b;
      NamesConcat(a[1..], b);
    }
  }

  lemma {:induction false} FullNamesConcat(a: seq<(string, string)>, b: seq<(string, string)>)
    ensures FullNames(a + b) == FullNames(a) + FullNames(b)
    decreases a
  {
    if a == [] {
      assert a + b == b;
    } else {
      assert (a + b)[1..] == a[1..] + b;
      FullNamesConcat(a[1..], b);
    }
  }

  lemma {:induction false} FilledMore(ns: seq<string>, name: string)
    ensures Filled(ns + [name]) == Filled(ns) + (if name == "" then [] else [name])
    decreases ns
  {
    if ns == [] {
      assert ns + [name] == [name] && [name][1..] == [];
    } else {
      assert (ns + [name])[1..] == ns[1..] + [name];
      FilledMore(ns[1..], name);
    }
  }

  lemma {:induction false} NothingCollected(n: Node, stack: seq<string>)
    requires NoStructs(n)
    ensures Collected(n, stack) == []
    decreases n, 1
  {
    NothingCollectedAll(n.kids, if n.tag == Module && n.name != "" then stack + [n.name] else stack);
  }

  lemma {:induction false} NothingCollectedAll(nodes: seq<Node>, stack: seq<string>)
    requires forall i :: 0 <= i < |nodes| ==> NoStructs(nodes[i])
    ensures CollectedAll(nodes, stack) == []
    decreases nodes, 0
  {
    if nodes != [] {
      NothingCollected(nodes[0], stack);
      NothingCollectedAll(nodes[1..], stack);
    }
  }

  // On tidy trees both meet the same full names in the same order.
  lemma {:induction false} SameNames(n: Node, ns: seq<string>)
    requires Tidy(n)
    ensures FullNames(Collected(n, Filled(ns))) == Names(Walked(n, ns))
    decreases n, 1
  {
    FilledMore(ns, n.name);
    match n.tag {
      case Struct =>
        NothingCollectedAll(n.kids, Filled(ns));
        var pair := (n.name, Join(Filled(ns) + [n.name]));
        assert Collected(n, Filled(ns)) == [pair];
        assert FullNames([pair]) == [pair.1] + FullNames([])
               && Names(Walked(n, ns)) == [Fqn(ns + [n.name])] + Names([]);
      case Enum => NothingCollectedAll(n.kids, Filled(ns));
      case Typedef => NothingCollectedAll(n.kids, Filled(ns));
      case Module =>
        SameNamesAll(n.kids, ns + [n.name]);
        assert n.name == "" ==> Filled(ns) + [] == Filled(ns);
      case Other => SameNamesAll(n.kids, ns);
    }
  }

  lemma {:induction false} SameNamesAll(nodes: seq<Node>, ns: seq<string>)
    requires TidyAll(nodes)
    ensures FullNames(CollectedAll(nodes, Filled(ns))) == Names(WalkedAll(nodes, ns))
    decreases nodes, 0
  {
    hide Collected, Walked, Tidy;
    if nodes != [] {
      SameNames(nodes[0], ns);
      SameNamesAll(nodes[1..], ns);
      FullNamesConcat(Collected(nodes[0], Filled(ns)), CollectedAll(nodes[1..], Filled(ns)));
      NamesConcat(Walked(nodes[0], ns), WalkedAll(nodes[1..], ns));
    }
  }

  // ---------- And on which of them are topics ----------

  predicate Identifiers(parts: seq<string>) {
    forall i :: 0 <= i < |parts| ==> Identifier(parts[i])
  }

  lemma NoSeparator(a: string)
    requires Identifier(a)
    ensures LastPart(a) == a
  {
    FindSpec(a, SEP);
    forall i ensures !MatchAt(a, SEP, i) {
      if 0 <= i && i + 2 <= |a| { assert a[i..i + 2][0] == a[i] != ':'; }
    }
  }

  lemma FirstSeparator(a: string, b: string)
    requires Identifier(a)
    ensures LastPart(a + SEP + b) == LastPart(b)
  {
    var s := a + SEP + b;
    assert s[|a|..|a| + 2] == SEP && s[|a| + 2..] == b;
    forall i | 0 <= i < |a| ensures !MatchAt(s, SEP, i) {
      assert s[i] == a[i] != ':';
      if i + 2 <= |s| { assert s[i..i + 2][0] == s[i]; }
    }
    FindIs(s, SEP, |a|);
  }

  lemma {:induction false} LastOfJoin(parts: seq<string>, name: string)
    requires Identifiers(parts) && Identifier(name)
    ensures LastPart(Join(parts + [name])) == name
    decreases parts
  {
    hide LastPart;
    if parts == [] {
      assert parts + [name] == [name];
      NoSeparator(name);
    } else {
      assert (parts + [name])[1..] == parts[1..] + [name];
      LastOfJoin(parts[1..], name);
      FirstSeparator(parts[0], Join(parts[1..] + [name]));
    }
  }

  // The names that make up full names hold no separator.
  predicate Plain(n: Node)
    decreases n
  {
    NoStructs(n) ||
    ((n.tag == Module || n.tag == Struct ==> Identifier(n.name)) && forall i :: 0 <= i < |n.kids| ==> Plain(n.kids[i]))
  }

  predicate PlainAll(nodes: seq<Node>) {
    forall i :: 0 <= i < |nodes| ==> Plain(nodes[i])
  }

  // Each collected pair is a struct's own name and a full name that ends in it.
  lemma {:induction false} CollectedLast(n: Node, stack: seq<string>)
    requires Plain(n) && Identifiers(stack)
    ensures forall p :: p in Collected(n, stack) ==> LastPart(p.1) == p.0
    decreases n, 1
  {
    hide LastPart;
    if NoStructs(n) {
      NothingCollected(n, stack);
    } else {
      if n.tag == Struct { LastOfJoin(stack, n.name); }
      CollectedLastAll(n.kids, if n.tag == Module && n.name != "" then stack + [n.name] else stack);
    }
  }

  lemma {:induction false} CollectedLastAll(nodes: seq<Node>, stack: seq<string>)
    requires PlainAll(nodes) && Identifiers(stack)
    ensures forall p :: p in CollectedAll(nodes, stack) ==> LastPart(p.1) == p.0
    decreases nodes, 0
  {
    hide LastPart, Collected, Plain;
    if nodes != [] {
      CollectedLast(nodes[0], stack);
      CollectedLastAll(nodes[1..], stack);
    }
  }

  lemma {:induction false} InFullNames(found: seq<(string, string)>, f: string)
    ensures f in FullNames(found) <==> exists p :: p in found && p.1 == f
  {
    if found != [] { InFullNames(found[1..], f); }
  }

  lemma {:induction false} InNames(found: seq<(string, nat)>, f: string)
    ensures f in Names(found) <==> exists n :: (f, n) in found
  {
    if found != [] {
      InNames(found[1..], f);
      if n :| (f, n) in found {
        assert (f, n) == found[0] || (f, n) in found[1..];
      }
      if n :| (f, n) in found[1..] { assert (f, n) in found; }
      if found[0].0 == f { assert (f, found[0].1) in found; }
    }
  }

  // The named structs that both generators meet.
  function Met(n: Node, stack: seq<string>): seq<string>
    decreases n, 1
  {
    match n.tag
    case Module => MetAll(n.kids, if n.name != "" then stack + [n.name] else stack)
    case Struct => if n.name != "" then [Join(stack + [n.name])] else []
    case Enum => []
    case Typedef => []
    case Other => MetAll(n.kids, stack)
  }

  function MetAll(nodes: seq<Node>, stack: seq<string>): seq<string>
    decreases nodes, 0
  {
    if nodes == [] then [] else Met(nodes[0], stack) + MetAll(nodes[1..], stack)
  }

  // What emit_autoreg alone meets: structs inside other definitions.
  function Hidden(n: Node, stack: seq<string>): seq<(string, string)>
    decreases n, 1
  {
    match n.tag
    case Module => HiddenAll(n.kids, if n.name != "" then stack + [n.name] else stack)
    case Other => HiddenAll(n.kids, stack)
    case _ => CollectedAll(n.kids, stack)
  }

  function HiddenAll(nodes: seq<Node>, stack: seq<string>): seq<(string, string)>
    decreases nodes, 0
  {
    if nodes == [] then [] else Hidden(nodes[0], stack) + HiddenAll(nodes[1..], stack)
  }

  // What emit_jsonbind alone meets: a struct without a name, called by its modules' names.
  function Phantom(n: Node, ns: seq<string>): seq<string>
    decreases n, 1
  {
    match n.tag
    case Module => PhantomAll(n.kids, ns + [n.name])
    case Struct => if n.name == "" then [Fqn(ns + [""])] else []
    case Enum => []
    case Typedef => []
    case Other => PhantomAll(n.kids, ns)
  }

  function PhantomAll(nodes: seq<Node>, ns: seq<string>): seq<string>
    decreases nodes, 0
  {
    if nodes == [] then [] else Phantom(nodes[0], ns) + PhantomAll(nodes[1..], ns)
  }

  lemma {:induction false} HiddenCollected(n: Node, stack: seq<string>)
    ensures forall p :: p in Hidden(n, stack) ==> p in Collected(n, stack)
    decreases n, 1
  {
    hide Join;
    match n.tag {
      case Module => HiddenCollectedAll(n.kids, if n.name != "" then stack + [n.name] else stack);
      case Other => HiddenCollectedAll(n.kids, stack);
      case _ =>
    }
  }

  lemma {:induction false} HiddenCollectedAll(nodes: seq<Node>, stack: seq<string>)
    ensures forall p :: p in HiddenAll(nodes, stack) ==> p in CollectedAll(nodes, stack)
    decreases nodes, 0
  {
    hide Collected, Hidden;
    if nodes != [] {
      HiddenCollected(nodes[0], stack);
      HiddenCollectedAll(nodes[1..], stack);
    }
  }

  lemma {:induction false} CollectedParts(n: Node, stack: seq<string>)
    ensures forall f :: f in FullNames(Collected(n, stack)) <==> f in Met(n, stack) || f in FullNames(Hidden(n, stack))
    decreases n, 1
  {
    hide Join;
    match n.tag {
      case Module => CollectedPartsAll(n.kids, if n.name != "" then stack + [n.name] else stack);
      case Struct =>
        if n.name != "" {
          var pair := (n.name, Join(stack + [n.name]));
          FullNamesConcat([pair], CollectedAll(n.kids, stack));
          assert FullNames([pair]) == [pair.1] + FullNames([]);
        }
      case Other => CollectedPartsAll(n.kids, stack);
      case _ =>
    }
  }

  lemma {:induction false} CollectedPartsAll(nodes: seq<Node>, stack: seq<string>)
    ensures forall f :: f in FullNames(CollectedAll(nodes, stack)) <==>
                        f in MetAll(nodes, stack) || f in FullNames(HiddenAll(nodes, stack))
    decreases nodes, 0
  {
    hide Collected, Met, Hidden;
    if nodes != [] {
      CollectedParts(nodes[0], stack);
      CollectedPartsAll(nodes[1..], stack);
      FullNamesConcat(Collected(nodes[0], stack), CollectedAll(nodes[1..], stack));
      FullNamesConcat(Hidden(nodes[0], stack), HiddenAll(nodes[1..], stack));
    }
  }

  lemma {:induction false} WalkedParts(n: Node, ns: seq<string>)
    ensures forall f :: f in Names(Walked(n, ns)) <==> f in Met(n, Filled(ns)) || f in Phantom(n, ns)
    decreases n, 1
  {
    hide Join;
    FilledMore(ns, n.name);
    match n.tag {
      case Module =>
        WalkedPartsAll(n.kids, ns + [n.name]);
        assert n.name == "" ==> Filled(ns) + [] == Filled(ns);
      case Struct => assert Names(Walked(n, ns)) == [Fqn(ns + [n.name])] + Names([]);
      case Other => WalkedPartsAll(n.kids, ns);
      case _ =>
    }
  }

  lemma {:induction false} WalkedPartsAll(nodes: seq<Node>, ns: seq<string>)
    ensures forall f :: f in Names(WalkedAll(nodes, ns)) <==>
            f in MetAll(nodes, Filled(ns)) || f in PhantomAll(nodes, ns)
    decreases nodes, 0
  {
    hide Walked, Met, Phantom, Filled;
    if nodes != [] {
      WalkedParts(nodes[0], ns);
      WalkedPartsAll(nodes[1..], ns);
      NamesConcat(Walked(nodes[0], ns), WalkedAll(nodes[1..], ns));
    }
  }

  // emit_autoreg registers the type: some struct of this full name has a topic's name.
  ghost predicate Registered(forest: seq<Node>, f: string) {
    exists name :: (name, f) in CollectedAll(forest, []) && IsTopicName(name)
  }

  // emit_jsonbind binds it.
  predicate Bound(forest: seq<Node>, f: string) {
    f in Merged(map[], WalkedAll(forest, [])) && IsTopicName(LastPart(f))
  }

  // No topic is known to one generator alone: each one inside another definition also stands on
  // its own, or is an unnamed struct's name, and each unnamed struct's name is also a struct's.
  predicate Covered(forest: seq<Node>) {
    && (forall p :: p in HiddenAll(forest, []) && IsTopicName(p.0) ==> p.1 in Names(WalkedAll(forest, [])))
    && (forall f :: f in PhantomAll(forest, []) && IsTopicName(LastPart(f)) ==>
         f in FullNames(CollectedAll(forest, [])))
  }

  lemma TopicNames(forest: seq<Node>, f: string)
    requires PlainAll(forest)
    ensures Registered(forest, f) <==> f in FullNames(CollectedAll(forest, [])) && IsTopicName(LastPart(f))
    ensures Bound(forest, f) <==> f in Names(WalkedAll(forest, [])) && IsTopicName(LastPart(f))
  {
    hide LastPart, Plain, CollectedAll, WalkedAll, IsTopicName;
    var a, b := CollectedAll(forest, []), WalkedAll(forest, []);
    CollectedLastAll(forest, []);
    MergedKeys(map[], b);
    InFullNames(a, f);
    InNames(b, f);
    hide FullNames, Names, Merged;
    if f in FullNames(a) {
      var p :| p in a && p.1 == f;
      assert (p.0, f) in a;
    }
  }

  // The generators name the same topic types exactly when none is known to one of them alone.
  lemma AgreeExactly(forest: seq<Node>)
    requires PlainAll(forest)
    ensures (forall f :: Registered(forest, f) <==> Bound(forest, f)) <==> Covered(forest)
  {
    hide LastPart, Plain, CollectedAll, WalkedAll, HiddenAll, PhantomAll, IsTopicName, Registered, Bound, FullNames,
         Names, MetAll;
    forall f
      ensures Registered(forest, f) <==> f in FullNames(CollectedAll(forest, [])) && IsTopicName(LastPart(f))
      ensures Bound(forest, f) <==> f in Names(WalkedAll(forest, [])) && IsTopicName(LastPart(f))
      ensures f in FullNames(HiddenAll(forest, [])) <==> exists p :: p in HiddenAll(forest, []) && p.1 == f
    {
      TopicNames(forest, f);
      InFullNames(HiddenAll(forest, []), f);
    }
    CollectedPartsAll(forest, []);
    WalkedPartsAll(forest, []);
    NothingFilled();
    HiddenCollectedAll(forest, []);
    CollectedLastAll(forest, []);
  }

  lemma NothingFilled()
    ensures Filled([]) == []
  {
  }

  // So they agree on every forest of named structs whose nested structs are no topics.
  lemma SameTopics(forest: seq<Node>, f: string)
    requires PlainAll(forest) && PhantomAll(forest, []) == []
    requires forall p :: p in HiddenAll(forest, []) ==> !IsTopicName(p.0)
    ensures Registered(forest, f) <==> Bound(forest, f)
  {
    hide PlainAll, HiddenAll, PhantomAll, IsTopicName, Registered, Bound;
    AgreeExactly(forest);
  }

  // A topic struct inside another struct is where they part: one lists it, the other never sees it.
  lemma NestedDiffers()
    ensures var inner := Node(Struct, "C_In", 1, []);
            var outer := Node(Struct, "Out", 1, [inner]);
            ("C_In", "C_In") in CollectedAll([outer], []) && IsTopicName("C_In") &&
            "C_In" !in Merged(map[], WalkedAll([outer], []))
  {
    var inner := Node(Struct, "C_In", 1, []);
    var outer := Node(Struct, "Out", 1, [inner]);
    assert [] + ["C_In"] == ["C_In"];
    assert CollectedAll([inner], []) == Collected(inner, []) + CollectedAll([], []);
    assert CollectedAll([outer], []) == Collected(outer, []) + CollectedAll([], []);
    assert WalkedAll([outer], []) == Walked(outer, []) + WalkedAll([], []);
    assert Filled([] + ["Out"]) == ["Out"] + Filled([]);
    assert Walked(outer, []) == [("Out", 1)];
    MergedKeys(map[], WalkedAll([outer], []));
  }
}
