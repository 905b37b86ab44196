// Where in the tree the types that the generators name stand, and what their names and members are
// (tools/emit_autoreg.py, lines 20-38, and tools/emit_jsonbind.py, lines 34 and 194-214).
module TypePaths {
  import opened Wrappers
  import opened Text
  import opened TypeNames

  // ---------- Full names ----------

  // A text taken apart at its separators.
  function Parts(s: string): seq<string>
    decreases |s|
  {
    match Find(s, "::") case None => [s] case Some(i) => [s[..i]] + Parts(s[i + 2..])
  }

  lemma PartsOne(a: string)
    requires Identifier(a)
    ensures Parts(a) == [a]
  {
    FindSpec(a, "::");
    forall i ensures !MatchAt(a, "::", i) {
      if 0 <= i && i + 2 <= |a| { assert a[i..i + 2][0] == a[i] != ':'; }
    }
  }

  lemma PartsFirst(a: string, b: string)
    requires Identifier(a)
    ensures Parts(a + "::" + b) == [a] + Parts(b)
  {
    var s := a + "::" + b;
    assert s[|a|..|a| + 2] == "::" && s[|a| + 2..] == b && s[..|a|] == a;
    forall i | 0 <= i < |a| ensures !MatchAt(s, "::", i) {
      assert s[i] == a[i] != ':';
      if i + 2 <= |s| { assert s[i..i + 2][0] == s[i]; }
    }
    FindIs(s, "::", |a|);
  }

  lemma JoinFirst(parts: seq<string>)
    requires parts != []
    ensures Join(parts) == if |parts| == 1 then parts[0] else parts[0] + "::" + Join(parts[1..])
  {
  }

  // A full name splits back into the identifiers it was joined from.
  lemma {:induction false} JoinSplits(parts: seq<string>)
    requires parts != [] && Identifiers(parts)
    ensures Parts(Join(parts)) == parts
  {
    hide Parts, Join, Identifier;
    JoinFirst(parts);
    if |parts| == 1 {
      PartsOne(parts[0]);
    } else {
      forall i | 0 <= i < |parts| - 1 ensures parts[1..][i] == parts[i + 1] {}
      JoinSplits(parts[1..]);
      PartsFirst(parts[0], Join(parts[1..]));
      assert parts == [parts[0]] + parts[1..];
    }
  }

  // ---------- Members ----------

  // Of the definitions of a name the greatest number of members found stays.
  lemma {:induction false} MergedGreatest(structs: map<string, nat>, found: seq<(string, nat)>, f: string)
    ensures var r := Merged(structs, found);
            && (f in structs ==> f in r && r[f] >= structs[f])
            && (forall n :: (f, n) in found ==> f in r && r[f] >= n)
            && (f in r ==> (f in structs && r[f] == structs[f]) || (f, r[f]) in found)
    decreases found
  {
    if found != [] {
      var (g, m) := found[0];
      var structs' := if g !in structs || m > structs[g] then structs[g := m] else structs;
      MergedGreatest(structs', found[1..], f);
      forall n | (f, n) in found ensures (f, n) == (g, m) || (f, n) in found[1..] {}
      assert found == [found[0]] + found[1..];
    }
  }

  // ---------- Paths ----------

  predicate ValidPath(n: Node, path: seq<nat>) {
    path == [] || (path[0] < |n.kids| && ValidPath(n.kids[path[0]], path[1..]))
  }

  function Target(n: Node, path: seq<nat>): Node
    requires ValidPath(n, path)
  {
    if path == [] then n else Target(n.kids[path[0]], path[1..])
  }

  // The elements a path leads through before its target.
  function Above(n: Node, path: seq<nat>): seq<Node>
    requires ValidPath(n, path)
  {
    if path == [] then [] else [n] + Above(n.kids[path[0]], path[1..])
  }

  function ModuleNames(above: seq<Node>): seq<string> {
    if above == [] then []
    else (if above[0].tag == Module && above[0].name != "" then [above[0].name] else []) + ModuleNames(above[1..])
  }

  // Nothing on the way that emit_jsonbind does not look into.
  predicate Open(above: seq<Node>) {
    forall a <- above :: a.tag == Module || a.tag == Other
  }

  lemma PathStep(n: Node, k: nat, path: seq<nat>)
    requires k < |n.kids| && ValidPath(n.kids[k], path)
    ensures ValidPath(n, [k] + path) && Target(n, [k] + path) == Target(n.kids[k], path)
    ensures Above(n, [k] + path) == [n] + Above(n.kids[k], path)
    ensures ModuleNames(Above(n, [k] + path)) ==
            (if n.tag == Module && n.name != "" then [n.name] else []) + ModuleNames(Above(n.kids[k], path))
    ensures Open(Above(n, [k] + path)) <==> (n.tag == Module || n.tag == Other) && Open(Above(n.kids[k], path))
  {
    assert ([k] + path)[1..] == path;
    var above := Above(n.kids[k], path);
    assert ([n] + above)[1..] == above;
    assert forall a :: a in [n] + above <==> a == n || a in above;
  }

  lemma ValidStep(n: Node, k: nat, path: seq<nat>)
    requires k < |n.kids|
    ensures ValidPath(n, [k] + path) <==> ValidPath(n.kids[k], path)
  {
    assert ([k] + path)[1..] == path;
  }

  lemma Joined(a: seq<string>, name: string, names: seq<string>)
    ensures a + ([name] + names) == a + [name] + names && a + ([] + names) == a + names && a + [] == a
  {
  }

  // ---------- What emit_autoreg collects ----------

  // p is the name and the full name of the named struct at the end of the path.
  predicate IsAt(n: Node, stack: seq<string>, path: seq<nat>, p: (string, string)) {
    && ValidPath(n, path) && Target(n, path).tag == Struct && Target(n, path).name != ""
    && p == (Target(n, path).name, Join(stack + ModuleNames(Above(n, path)) + [Target(n, path).name]))
  }

  function Inner(n: Node, stack: seq<string>): seq<string> {
    if n.tag == Module && n.name != "" then stack + [n.name] else stack
  }

  lemma CollectedUnfold(n: Node, stack: seq<string>, p: (string, string))
    ensures p in Collected(n, stack) <==> p in CollectedAll(n.kids, Inner(n, stack)) || IsAt(n, stack, [], p)
  {
    hide Join;
    assert stack + [] == stack;
  }

  lemma {:induction false} InCollectedAll(nodes: seq<Node>, stack: seq<string>, p: (string, string))
    ensures p in CollectedAll(nodes, stack) <==> exists k :: 0 <= k < |nodes| && p in Collected(nodes[k], stack)
  {
    hide Collected;
    if nodes != [] {
      InCollectedAll(nodes[1..], stack, p);
      forall k | 1 <= k < |nodes| ensures nodes[k] == nodes[1..][k - 1] {}
      if k :| 0 <= k < |nodes| - 1 && p in Collected(nodes[1..][k], stack) { assert nodes[k + 1] == nodes[1..][k]; }
    }
  }

  lemma IsAtStep(n: Node, stack: seq<string>, k: nat, path: seq<nat>, p: (string, string))
    requires k < |n.kids|
    ensures IsAt(n, stack, [k] + path, p) <==> IsAt(n.kids[k], Inner(n, stack), path, p)
  {
    hide Join, ValidPath, Target, Above, ModuleNames, Open;
    ValidStep(n, k, path);
    if ValidPath(n.kids[k], path) {
      PathStep(n, k, path);
      Joined(stack, n.name, ModuleNames(Above(n.kids[k], path)));
    }
  }

  // What is collected are the named structs anywhere in the tree, each under its own name and that of the
  // named modules it stands in.
  lemma {:induction false} CollectedExactly(n: Node, stack: seq<string>, p: (string, string))
    ensures p in Collected(n, stack) <==> exists path :: IsAt(n, stack, path, p)
    decreases n
  {
    hide Collected, CollectedAll, IsAt, Inner;
    CollectedUnfold(n, stack, p);
    InCollectedAll(n.kids, Inner(n, stack), p);
    forall k | 0 <= k < |n.kids|
      ensures p in Collected(n.kids[k], Inner(n, stack)) <==> exists path :: IsAt(n.kids[k], Inner(n, stack), path, p)
    {
      CollectedExactly(n.kids[k], Inner(n, stack), p);
    }
    if k :| 0 <= k < |n.kids| && p in Collected(n.kids[k], Inner(n, stack)) {
      var path: seq<nat> :| IsAt(n.kids[k], Inner(n, stack), path, p);
      IsAtStep(n, stack, k, path, p);
    }
    if path: seq<nat> :| IsAt(n, stack, path, p) {
      if path != [] {
        FirstStep(n, stack, path, p);
        assert path == [path[0]] + path[1..];
        IsAtStep(n, stack, path[0], path[1..], p);
      }
    }
  }

  lemma FirstStep(n: Node, stack: seq<string>, path: seq<nat>, p: (string, string))
    requires path != [] && IsAt(n, stack, path, p)
    ensures path[0] < |n.kids|
  {
  }

  // ---------- What emit_jsonbind walks ----------

  // p is the full name and the member count of the struct at the end of an open path.
  predicate IsOpenAt(n: Node, ns: seq<string>, path: seq<nat>, p: (string, nat)) {
    && ValidPath(n, path) && Target(n, path).tag == Struct && Open(Above(n, path))
    && p == (Join(Filled(ns) + ModuleNames(Above(n, path)) + Filled([Target(n, path).name])), Target(n, path).members)
  }

  function Passed(n: Node, ns: seq<string>): seq<string> { if n.tag == Module then ns + [n.name] else ns }

  lemma OneFilled(name: string)
    ensures Filled([name]) == if name == "" then [] else [name]
  {
    assert [name][1..] == [];
  }

  lemma WalkedUnfold(n: Node, ns: seq<string>, p: (string, nat))
    ensures p in Walked(n, ns) <==>
            || ((n.tag == Module || n.tag == Other) && p in WalkedAll(n.kids, Passed(n, ns)))
            || IsOpenAt(n, ns, [], p)
  {
    hide Join, Filled;
    OneFilled(n.name);
    FilledMore(ns, n.name);
    assert Filled(ns) + [] == Filled(ns);
  }

  lemma {:induction false} InWalkedAll(nodes: seq<Node>, ns: seq<string>, p: (string, nat))
    ensures p in WalkedAll(nodes, ns) <==> exists k :: 0 <= k < |nodes| && p in Walked(nodes[k], ns)
  {
    hide Walked;
    if nodes != [] {
      InWalkedAll(nodes[1..], ns, p);
      forall k | 1 <= k < |nodes| ensures nodes[k] == nodes[1..][k - 1] {}
      if k :| 0 <= k < |nodes| - 1 && p in Walked(nodes[1..][k], ns) { assert nodes[k + 1] == nodes[1..][k]; }
    }
  }

  lemma IsOpenStep(n: Node, ns: seq<string>, k: nat, path: seq<nat>, p: (string, nat))
    requires k < |n.kids|
    ensures IsOpenAt(n, ns, [k] + path, p) <==>
            (n.tag == Module || n.tag == Other) && IsOpenAt(n.kids[k], Passed(n, ns), path, p)
  {
    hide Join, Filled, ValidPath, Target, Above, ModuleNames, Open;
    ValidStep(n, k, path);
    if ValidPath(n.kids[k], path) {
      PathStep(n, k, path);
      FilledMore(ns, n.name);
      Joined(Filled(ns), n.name, ModuleNames(Above(n.kids[k], path)));
    }
  }

  // What is walked are the structs that stand in nothing but modules, under the names of those modules and
  // their own, as far as they have one.
  lemma {:induction false} WalkedExactly(n: Node, ns: seq<string>, p: (string, nat))
    ensures p in Walked(n, ns) <==> exists path :: IsOpenAt(n, ns, path, p)
    decreases n
  {
    hide Walked, WalkedAll, IsOpenAt, Passed;
    WalkedUnfold(n, ns, p);
    InWalkedAll(n.kids, Passed(n, ns), p);
    forall k | 0 <= k < |n.kids|
      ensures p in Walked(n.kids[k], Passed(n, ns)) <==> exists path :: IsOpenAt(n.kids[k], Passed(n, ns), path, p)
    {
      WalkedExactly(n.kids[k], Passed(n, ns), p);
    }
    if k :| 0 <= k < |n.kids| && p in Walked(n.kids[k], Passed(n, ns)) {
      var path: seq<nat> :| IsOpenAt(n.kids[k], Passed(n, ns), path, p);
      IsOpenStep(n, ns, k, path, p);
    }
    if path: seq<nat> :| IsOpenAt(n, ns, path, p) {
      if path != [] {
        FirstOpenStep(n, ns, path, p);
        assert path == [path[0]] + path[1..];
        IsOpenStep(n, ns, path[0], path[1..], p);
      }
    }
  }

  lemma FirstOpenStep(n: Node, ns: seq<string>, path: seq<nat>, p: (string, nat))
    requires path != [] && IsOpenAt(n, ns, path, p)
    ensures path[0] < |n.kids|
  {
  }
}
