// What a provider gives for a profile: its block and the blocks it inherits from, along base_name.
module QosChain {
  import opened Wrappers
  import opened Text
  import opened QosXml

  type Name = (string, string)

  const SEP := "::"
  const BASE_NAME := "base_name="

  // How a full name is taken apart: at the first separator (ipc_adapter.cpp, lines 373-378).
  function Split(name: string): Name {
    match Find(name, SEP)
    case None => ("", "")
    case Some(p) => (name[..p], name[p + 2..])
  }

  // The quoted value of base_name in a block's opening tag.
  function BaseName(block: string): Option<string> {
    match Find(block, ">")
    case None => None
    case Some(e) =>
      match Find(block[..e], BASE_NAME)
      case None => None
      case Some(i) => QuotedValue(block[i + |BASE_NAME|..e])
  }

  // The value in quotes that a text starts with.
  function QuotedValue(s: string): Option<string> {
    if s == "" || (s[0] != '"' && s[0] != '\'') then None
    else match Find(s[1..], [s[0]]) case None => None case Some(q) => Some(s[1..][..q])
  }

  // A base without a library is one of the same library.
  function BaseOf(lib: string, block: string): Option<Name> {
    match BaseName(block)
    case None => None
    case Some(v) => Some(if Occurs(v, SEP) then Split(v) else (lib, v))
  }

  // The block of a listed profile.
  function Holds(s: string, n: Name): (r: string)
    ensures r != "" ==> r == Extract(s, n.0, n.1)
  {
    if n in Listing(s) then Extract(s, n.0, n.1) else ""
  }

  // The blocks inherited from, nearest first, until a profile has no base, or one that is missing or
  // has been met.
  function Follow(s: string, lib: string, block: string, seen: set<Name>): seq<string>
    decreases (set n | n in Listing(s)) - seen
  {
    match BaseOf(lib, block)
    case None => []
    case Some(b) =>
      if b in seen || Holds(s, b) == "" then [] else [Holds(s, b)] + Follow(s, b.0, Holds(s, b), seen + {b})
  }

  // The profiles looked up on the way, the missing one included.
  function Members(s: string, lib: string, block: string, seen: set<Name>): seq<Name>
    decreases (set n | n in Listing(s)) - seen
  {
    match BaseOf(lib, block)
    case None => []
    case Some(b) =>
      if b in seen then []
      else if Holds(s, b) == "" then [b]
      else [b] + Members(s, b.0, Holds(s, b), seen + {b})
  }

  // Two texts give the same blocks exactly when they hold the same for every profile on the way.
  lemma {:induction false} FollowSame(s: string, t: string, lib: string, block: string, seen: set<Name>)
    ensures Follow(s, lib, block, seen) == Follow(t, lib, block, seen) <==>
            forall m :: m in Members(s, lib, block, seen) ==> Holds(s, m) == Holds(t, m)
    decreases (set n | n in Listing(s)) - seen
  {
    hide BaseOf, Listing, Extract;
    match BaseOf(lib, block) {
      case None =>
      case Some(b) =>
        if b !in seen {
          var x, y := Holds(s, b), Holds(t, b);
          if x == y && x != "" {
            FollowSame(s, t, b.0, x, seen + {b});
            assert Follow(s, lib, block, seen) == [x] + Follow(s, b.0, x, seen + {b});
            assert Follow(t, lib, block, seen) == [x] + Follow(t, b.0, x, seen + {b});
            assert ([x] + Follow(s, b.0, x, seen + {b}))[1..] == Follow(s, b.0, x, seen + {b});
            assert ([x] + Follow(t, b.0, x, seen + {b}))[1..] == Follow(t, b.0, x, seen + {b});
          } else {
            assert b in Members(s, lib, block, seen);
            if x != "" && y != "" {
              assert Follow(s, lib, block, seen)[0] == x && Follow(t, lib, block, seen)[0] == y;
            }
          }
        }
    }
  }

  // The bases of the names are names too.
  predicate Enclosed(s: string, names: set<Name>) {
    forall n :: n in names ==>
      match BaseOf(n.0, Extract(s, n.0, n.1)) case None => true case Some(b) => b in names
  }

  lemma {:induction false} MembersNamed(s: string, names: set<Name>, lib: string, block: string, seen: set<Name>)
    requires Enclosed(s, names) && (match BaseOf(lib, block) case None => true case Some(b) => b in names)
    ensures forall m :: m in Members(s, lib, block, seen) ==> m in names
    decreases (set n | n in Listing(s)) - seen
  {
    hide BaseOf, Listing, Extract;
    match BaseOf(lib, block) {
      case None =>
      case Some(b) =>
        if b !in seen && Holds(s, b) != "" { MembersNamed(s, names, b.0, Holds(s, b), seen + {b}); }
    }
  }

  // ---------- What a base is and what a chain is ----------

  predicate FirstMatch(s: string, pat: string, i: nat) {
    MatchAt(s, pat, i) && forall k :: 0 <= k < i ==> !MatchAt(s, pat, k)
  }

  // A text starts with v between two quotes of a kind.
  predicate StartsQuoted(s: string, v: string) {
    && |s| > |v| + 1 && (s[0] == '"' || s[0] == '\'') && s[0] !in v
    && s[1..|v| + 1] == v && s[|v| + 1] == s[0]
  }

  // v is the value of the first base_name before the first closing bracket.
  ghost predicate BaseReads(block: string, v: string) {
    exists e: nat, i: nat ::
      && FirstMatch(block, ">", e) && e <= |block| && FirstMatch(block[..e], "base_name=", i)
      && i + 10 <= e && StartsQuoted(block[i + 10..e], v)
  }

  lemma FirstExactly(s: string, pat: string, i: nat)
    ensures Find(s, pat) == Some(i) <==> FirstMatch(s, pat, i)
  {
    FindSpec(s, pat);
  }

  lemma QuotedExactly(s: string, v: string)
    ensures QuotedValue(s) == Some(v) <==> StartsQuoted(s, v)
  {
    if s != "" && (s[0] == '"' || s[0] == '\'') {
      var t, n := s[1..], |v|;
      FirstExactly(t, [s[0]], n);
      forall k | 0 <= k < |t| ensures MatchAt(t, [s[0]], k) <==> t[k] == s[0] { assert t[k..k + 1] == [t[k]]; }
      hide Find;
      if StartsQuoted(s, v) {
        assert forall k :: 0 <= k < n ==> t[k] == v[k];
        assert t[..n] == v;
      }
      if QuotedValue(s) == Some(v) {
        QuotedLength(s, v);
        assert forall k :: 0 <= k < n ==> t[k] == v[k];
        assert s[1..n + 1] == t[..n];
      }
    }
  }

  lemma QuotedLength(s: string, v: string)
    requires QuotedValue(s) == Some(v)
    ensures |s| > |v| + 1 && Find(s[1..], [s[0]]) == Some(|v|) && s[1..][..|v|] == v
  {
  }

  lemma BaseNameExactly(block: string, v: string)
    ensures BaseName(block) == Some(v) <==> BaseReads(block, v)
  {
    hide Find, QuotedValue, StartsQuoted, FirstMatch;
    assert BASE_NAME == "base_name=" && |BASE_NAME| == 10;
    forall e: nat ensures Find(block, ">") == Some(e) <==> FirstMatch(block, ">", e) { FirstExactly(block, ">", e); }
    if Find(block, ">").Some? {
      var e := Find(block, ">").value;
      forall i: nat ensures Find(block[..e], BASE_NAME) == Some(i) <==> FirstMatch(block[..e], BASE_NAME, i) {
        FirstExactly(block[..e], BASE_NAME, i);
      }
      if Find(block[..e], BASE_NAME).Some? {
        var i := Find(block[..e], BASE_NAME).value;
        QuotedExactly(block[i + 10..e], v);
      }
    }
  }

  // A base is named in full, split at its first separator, or is one of the same library.
  ghost predicate BaseIs(lib: string, block: string, b: Name) {
    exists v :: BaseReads(block, v) && Names(lib, v, b)
  }

  ghost predicate Names(lib: string, v: string, b: Name) {
    if exists p :: MatchAt(v, "::", p) then
      exists p: nat :: FirstMatch(v, "::", p) && p + 2 <= |v| && b == (v[..p], v[p + 2..])
    else b == (lib, v)
  }

  lemma NamesExactly(lib: string, v: string, b: Name)
    ensures Names(lib, v, b) <==> b == if Occurs(v, SEP) then Split(v) else (lib, v)
  {
    assert SEP == "::";
    FindSpec(v, "::");
    hide Find, MatchAt;
    if Find(v, "::").Some? {
      var p := Find(v, "::").value;
      assert FirstMatch(v, "::", p);
      forall q: nat | FirstMatch(v, "::", q) ensures q == p {}
    }
  }

  lemma BaseOfExactly(lib: string, block: string, b: Name)
    ensures BaseOf(lib, block) == Some(b) <==> BaseIs(lib, block, b)
  {
    hide BaseName, BaseReads, Names, Split, Occurs;
    forall v ensures BaseName(block) == Some(v) <==> BaseReads(block, v) { BaseNameExactly(block, v); }
    if BaseName(block).Some? { NamesExactly(lib, BaseName(block).value, b); }
  }

  // Each block after the first is what is held of the base of the one before; no profile comes twice;
  // and the last has no base, or one that is missing or came before.
  predicate Linked(s: string, ns: seq<Name>, blocks: seq<string>)
    requires |ns| == |blocks|
  {
    && (forall i, h :: 0 <= i < h < |ns| ==> ns[i] != ns[h])
    && forall i :: 0 < i < |ns| ==>
         BaseOf(ns[i - 1].0, blocks[i - 1]) == Some(ns[i]) && blocks[i] == Holds(s, ns[i]) != ""
  }

  predicate Chain(s: string, ns: seq<Name>, blocks: seq<string>) {
    && |ns| == |blocks| > 0 && Linked(s, ns, blocks)
    && match BaseOf(ns[|ns| - 1].0, blocks[|ns| - 1])
       case None => true
       case Some(b) => b in ns || Holds(s, b) == ""
  }

  lemma LinkedMore(s: string, ns: seq<Name>, blocks: seq<string>, b: Name)
    requires |ns| == |blocks| > 0 && Linked(s, ns, blocks) && b !in ns && Holds(s, b) != ""
    requires BaseOf(ns[|ns| - 1].0, blocks[|ns| - 1]) == Some(b)
    ensures Linked(s, ns + [b], blocks + [Holds(s, b)])
  {
    hide BaseOf, Holds;
  }

  lemma FollowUnfold(s: string, lib: string, block: string, seen: set<Name>)
    ensures Follow(s, lib, block, seen) ==
            match BaseOf(lib, block)
            case None => []
            case Some(b) =>
              if b in seen || Holds(s, b) == "" then [] else [Holds(s, b)] + Follow(s, b.0, Holds(s, b), seen + {b})
  {
    hide BaseOf, Holds, Listing;
  }

  lemma HeldListed(s: string, n: Name)
    ensures Holds(s, n) != "" ==> n in Listing(s)
  {
    hide Listing, Extract;
  }

  lemma Regrouped(ns: seq<Name>, b: Name, more: seq<Name>, blocks: seq<string>, x: string, rest: seq<string>)
    ensures ns + [b] + more == ns + ([b] + more) && blocks + [x] + rest == blocks + ([x] + rest)
    ensures (set m | m in ns + [b]) == (set m | m in ns) + {b}
    ensures ns + [] == ns && blocks + [] == blocks
  {
  }

  lemma {:induction false} FollowChain(s: string, ns: seq<Name>, blocks: seq<string>)
    requires |ns| == |blocks| > 0 && Linked(s, ns, blocks)
    ensures var n := |ns| - 1;
            exists more: seq<Name> :: Chain(s, ns + more, blocks + Follow(s, ns[n].0, blocks[n], set m | m in ns))
    decreases (set n | n in Listing(s)) - set m | m in ns
  {
    hide BaseOf, Listing, Extract, Holds, Follow, Linked;
    var n, seen := |ns| - 1, set m | m in ns;
    FollowUnfold(s, ns[n].0, blocks[n], seen);
    match BaseOf(ns[n].0, blocks[n])
    case None =>
      Regrouped(ns, ns[n], [], blocks, "", []);
      assert Chain(s, ns + [], blocks + []);
    case Some(b) =>
      var x := Holds(s, b);
      if b in seen || x == "" {
        Regrouped(ns, b, [], blocks, "", []);
        assert Chain(s, ns + [], blocks + []);
      } else {
        HeldListed(s, b);
        LinkedMore(s, ns, blocks, b);
        var rest := Follow(s, b.0, x, seen + {b});
        Regrouped(ns, b, [], blocks, x, rest);
        FollowChain(s, ns + [b], blocks + [x]);
        var more: seq<Name> :| Chain(s, ns + [b] + more, blocks + [x] + rest);
        Regrouped(ns, b, more, blocks, x, rest);
      }
  }

  // So it is with the blocks from a profile on.
  lemma FollowLinks(s: string, n: Name, block: string)
    ensures exists ns :: Chain(s, ns, [block] + Follow(s, n.0, block, {n})) && ns[0] == n
  {
    hide BaseOf, Listing, Extract, Holds, Follow;
    assert (set m | m in [n]) == {n};
    FollowChain(s, [n], [block]);
    var more: seq<Name> :| Chain(s, [n] + more, [block] + Follow(s, n.0, block, {n}));
  }
}
