// Substring search as std::string offers it.
module Text {
  import opened Wrappers

  predicate MatchAt(s: string, pat: string, i: int) {
    0 <= i && i + |pat| <= |s| && s[i..i + |pat|] == pat
  }

  function Shift(o: Option<nat>, n: nat): Option<nat> {
    match o case None => None case Some(i) => Some(i + n)
  }

  // std::string::find from the start.
  function Find(s: string, pat: string): (r: Option<nat>)
    ensures r.Some? ==> r.value + |pat| <= |s|
    decreases |s|
  {
    if MatchAt(s, pat, 0) then Some(0)
    else if s == [] then None
    else Shift(Find(s[1..], pat), 1)
  }

  // std::string::find from a position.
  function FindFrom(s: string, pat: string, pos: nat): (r: Option<nat>)
    ensures r.Some? ==> pos <= r.value && r.value + |pat| <= |s|
  {
    if pos > |s| then None else Shift(Find(s[pos..], pat), pos)
  }

  predicate Occurs(s: string, pat: string) {
    Find(s, pat).Some?
  }

  // find_first_of over the two quote characters.
  function FindQuote(s: string): (r: Option<nat>)
    ensures r.Some? ==> r.value < |s| && (s[r.value] == '"' || s[r.value] == '\'')
  {
    if s == [] then None
    else if s[0] == '"' || s[0] == '\'' then Some(0)
    else Shift(FindQuote(s[1..]), 1)
  }

  // A match at i in s is a match at i - n once n characters are dropped.
  lemma MatchDrop(s: string, pat: string, n: nat, i: int)
    requires n <= |s| && n <= i
    ensures MatchAt(s, pat, i) == MatchAt(s[n..], pat, i - n)
  {
    if i + |pat| <= |s| {
      var k := i - n;
      assert s[n..][k..k + |pat|] == s[n + k..n + k + |pat|];
    }
  }

  lemma MatchPrefix(a: string, b: string, pat: string, i: int)
    requires i + |pat| <= |a|
    ensures MatchAt(a + b, pat, i) == MatchAt(a, pat, i)
  {
    if 0 <= i { assert (a + b)[i..i + |pat|] == a[i..i + |pat|]; }
  }

  // The search finds the least match, and nothing only when there is none.
  lemma {:induction false} FindSpec(s: string, pat: string)
    ensures match Find(s, pat)
            case Some(k) => MatchAt(s, pat, k) && forall i :: 0 <= i < k ==> !MatchAt(s, pat, i)
            case None => forall i :: !MatchAt(s, pat, i)
    decreases |s|
  {
    if !MatchAt(s, pat, 0) && s != [] {
      FindSpec(s[1..], pat);
      forall i | i >= 1 ensures MatchAt(s, pat, i) == MatchAt(s[1..], pat, i - 1) { MatchDrop(s, pat, 1, i); }
    }
  }

  lemma FindIs(s: string, pat: string, k: nat)
    requires MatchAt(s, pat, k) && forall i :: 0 <= i < k ==> !MatchAt(s, pat, i)
    ensures Find(s, pat) == Some(k)
  {
    FindSpec(s, pat);
  }

  // If no match of pat starts in a, the search goes on in b.
  lemma {:induction false} FindSkips(a: string, b: string, pat: string)
    requires forall i :: 0 <= i < |a| ==> !MatchAt(a + b, pat, i)
    ensures Find(a + b, pat) == Shift(Find(b, pat), |a|)
    decreases |a|
  {
    if a == [] {
      assert a + b == b;
    } else {
      assert (a + b)[1..] == a[1..] + b;
      forall i | 0 <= i < |a| - 1 ensures !MatchAt(a[1..] + b, pat, i) { MatchDrop(a + b, pat, 1, i + 1); }
      FindSkips(a[1..], b, pat);
    }
  }

  lemma FindHere(pat: string, b: string)
    ensures Find(pat + b, pat) == Some(0)
  {
    assert (pat + b)[0..|pat|] == pat;
  }

  // Up to and including the first c.
  lemma FindChar(a: string, c: char, b: string)
    requires c !in a
    ensures Find(a + [c] + b, [c]) == Some(|a|)
  {
    var s := a + [c] + b;
    assert s[|a|..|a| + 1] == [c];
    forall i | 0 <= i < |a| ensures !MatchAt(s, [c], i) {
      assert s[i..i + 1][0] == a[i];
    }
    FindIs(s, [c], |a|);
  }
}
