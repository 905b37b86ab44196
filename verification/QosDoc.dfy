// Documents behind the QoS texts: libraries of profiles, how they are written out, and what the
// scanners see in them.
module QosDoc {
  import opened Wrappers
  import opened Text
  import opened QosXml

  // lead and trail hold whatever stands around a block: white space, comments, other elements.
  datatype Profile = Profile(lead: string, attrs: string, body: string, trail: string)
  datatype Library = Library(lead: string, attrs: string, profiles: seq<Profile>, tail: string)

  function Open(marker: string, attrs: string): string { marker + attrs + ">" }

  function Block(p: Profile): string { Open(PROF, p.attrs) + p.body + PROF_END }

  function RenderProfile(p: Profile): string { p.lead + Block(p) + p.trail }

  function RenderProfiles(ps: seq<Profile>): string {
    if ps == [] then "" else RenderProfile(ps[0]) + RenderProfiles(ps[1..])
  }

  function Inside(l: Library): string { RenderProfiles(l.profiles) + l.tail }

  function RenderLibrary(l: Library): string { l.lead + Open(LIB, l.attrs) + Inside(l) + LIB_END }

  function RenderLibraries(ls: seq<Library>): string {
    if ls == [] then "" else RenderLibrary(ls[0]) + RenderLibraries(ls[1..])
  }

  // ---------- Well-formed text ----------

  predicate IsMarker(pat: string) {
    pat == LIB || pat == LIB_END || pat == PROF || pat == PROF_END
  }

  // Every tag or comment that starts in s also ends in s.
  predicate Closed(s: string) {
    forall i :: 0 <= i < |s| && s[i] == '<' ==> '>' in s[i + 1..]
  }

  ghost predicate Quiet(s: string, pat: string) {
    Closed(s) && forall i :: !MatchAt(s, pat, i)
  }

  ghost predicate Plain(s: string) {
    Quiet(s, LIB) && Quiet(s, LIB_END) && Quiet(s, PROF) && Quiet(s, PROF_END)
  }

  predicate AttrsOk(attrs: string) {
    '<' !in attrs && '>' !in attrs
  }

  ghost predicate ProfileOk(p: Profile) {
    Plain(p.lead) && AttrsOk(p.attrs) && Plain(p.body) && Plain(p.trail)
  }

  ghost predicate ProfilesOk(ps: seq<Profile>) {
    forall i :: 0 <= i < |ps| ==> ProfileOk(ps[i])
  }

  ghost predicate LibraryOk(l: Library) {
    Plain(l.lead) && AttrsOk(l.attrs) && ProfilesOk(l.profiles) && Plain(l.tail)
  }

  ghost predicate LibrariesOk(ls: seq<Library>) {
    forall i :: 0 <= i < |ls| ==> LibraryOk(ls[i])
  }

  // ---------- Searching quiet text ----------

  lemma MarkerShape(pat: string)
    requires IsMarker(pat)
    ensures |pat| > 0 && pat[0] == '<'
    ensures forall i :: 0 < i < |pat| ==> pat[i] != '<'
    ensures forall i :: 0 <= i < |pat| - 1 ==> pat[i] != '>'
  {
  }

  lemma Mismatch(s: string, pat: string, i: int, k: nat)
    requires 0 <= i && k < |pat| && (i + k < |s| ==> s[i + k] != pat[k])
    ensures !MatchAt(s, pat, i)
  {
    if i + |pat| <= |s| {
      assert s[i..i + |pat|][k] == s[i + k];
    }
  }

  lemma QuietMatch(a: string, b: string, pat: string, i: int)
    requires Closed(a) && !MatchAt(a, pat, i) && IsMarker(pat) && 0 <= i < |a|
    ensures !MatchAt(a + b, pat, i)
  {
    MarkerShape(pat);
    hide IsMarker;
    if a[i] != '<' {
      Mismatch(a + b, pat, i, 0);
    } else if i + |pat| <= |a| {
      assert (a + b)[i..i + |pat|] == a[i..i + |pat|];
    } else {
      var j :| 0 <= j < |a[i + 1..]| && a[i + 1..][j] == '>';
      assert (a + b)[i + (j + 1)] == '>';
      Mismatch(a + b, pat, i, j + 1);
    }
  }

  lemma QuietSkip(a: string, b: string, pat: string)
    requires Quiet(a, pat) && IsMarker(pat)
    ensures Find(a + b, pat) == Shift(Find(b, pat), |a|)
  {
    forall i | 0 <= i < |a| ensures !MatchAt(a + b, pat, i) { QuietMatch(a, b, pat, i); }
    FindSkips(a, b, pat);
  }

  lemma QuietConcat(a: string, b: string, pat: string)
    requires Quiet(a, pat) && Quiet(b, pat) && IsMarker(pat)
    ensures Quiet(a + b, pat)
  {
    hide IsMarker;
    var s := a + b;
    forall i | 0 <= i < |s| && s[i] == '<' ensures '>' in s[i + 1..] {
      if i < |a| {
        var j :| 0 <= j < |a[i + 1..]| && a[i + 1..][j] == '>';
        assert s[i + 1..][j] == '>';
      } else {
        assert s[i + 1..] == b[i - |a| + 1..];
      }
    }
    forall i ensures !MatchAt(s, pat, i) {
      if 0 <= i < |a| {
        QuietMatch(a, b, pat, i);
      } else if i >= |a| {
        assert s[|a|..] == b;
        MatchDrop(s, pat, |a|, i);
      }
    }
  }

  // A text whose only '<' is its first character, with a '>' after it.
  lemma OneTagQuiet(s: string, pat: string)
    requires |s| > 0 && s[|s| - 1] == '>' && (forall i :: 0 < i < |s| ==> s[i] != '<')
    requires IsMarker(pat) && !MatchAt(s, pat, 0)
    ensures Quiet(s, pat)
  {
    MarkerShape(pat);
    hide IsMarker;
    forall i | 0 <= i < |s| && s[i] == '<' ensures '>' in s[i + 1..] {
      assert i == 0;
      if |s| > 1 { assert s[1..][|s| - 2] == '>'; }
    }
    forall i ensures !MatchAt(s, pat, i) {
      if i > 0 { Mismatch(s, pat, i, 0); }
    }
  }

  lemma EndQuiet(marker: string, pat: string)
    requires (marker == PROF_END || marker == LIB_END) && IsMarker(pat) && pat != marker
    ensures Quiet(marker, pat)
  {
    Mismatch(marker, pat, 0, if pat == PROF || pat == LIB then 1 else 6);
    OneTagQuiet(marker, pat);
  }

  lemma OpenQuiet(marker: string, attrs: string, pat: string)
    requires (marker == PROF || marker == LIB) && AttrsOk(attrs) && IsMarker(pat) && pat != marker
    ensures Quiet(Open(marker, attrs), pat)
  {
    var s := Open(marker, attrs);
    forall i | 0 < i < |s| ensures s[i] != '<' {
      if i >= |marker| && i < |s| - 1 { assert s[i] == attrs[i - |marker|]; }
    }
    assert s[1] == marker[1] && s[5] == marker[5];
    Mismatch(s, pat, 0, if pat == PROF || pat == LIB then 5 else 1);
    OneTagQuiet(s, pat);
  }

  // ---------- Where the scanners stop in rendered text ----------

  lemma NoGt(marker: string, attrs: string)
    requires (marker == LIB || marker == PROF) && AttrsOk(attrs)
    ensures '>' !in marker + attrs
  {
    MarkerShape(marker);
    var m := marker + attrs;
    forall i | 0 <= i < |m| ensures m[i] != '>' {
      if i >= |marker| { assert m[i] == attrs[i - |marker|]; }
    }
  }

  // The text of a tag, cut in the ways the scanners cut it.
  lemma TagText(a: string, m: string, attrs: string, b: string)
    ensures var s, n := a + (m + attrs + ">") + b, |a| + |m| + |attrs|;
            && s == a + (m + (attrs + ">" + b))
            && s[|a|..] == (m + attrs) + [">"[0]] + b
            && s[|a|..n + 1] == m + attrs + ">"
  {
    var s, n := a + (m + attrs + ">") + b, |a| + |m| + |attrs|;
    assert s[..|a|] == a;
    assert s[|a|..] == (m + attrs + ">") + b;
  }

  lemma TagRest(a: string, m: string, attrs: string, b: string)
    ensures var s, n := a + (m + attrs + ">") + b, |a| + |m| + |attrs|; s[n..] == ">" + b && s[n + 1..] == b
  {
  }

  lemma TagHere(a: string, marker: string, attrs: string, b: string)
    requires (marker == LIB || marker == PROF) && Quiet(a, marker) && AttrsOk(attrs)
    ensures var s, n := a + Open(marker, attrs) + b, |a| + |marker| + |attrs|;
            && NextTag(s, marker) == Some(Span(|a|, n))
            && s[|a|..n + 1] == Open(marker, attrs)
            && s[n..] == ">" + b && s[n + 1..] == b
  {
    hide Find, MatchAt, Quiet, AttrsOk, LIB, PROF, LIB_END, PROF_END;
    var s, m := a + Open(marker, attrs) + b, marker + attrs;
    var rest := attrs + ">" + b;
    TagText(a, marker, attrs, b);
    TagRest(a, marker, attrs, b);
    QuietSkip(a, marker + rest, marker);
    FindHere(marker, rest);
    NoGt(marker, attrs);
    FindChar(m, '>', b);
  }

  lemma GtQuiet(pat: string)
    requires IsMarker(pat)
    ensures Quiet(">", pat)
  {
    MarkerShape(pat);
    forall i ensures !MatchAt(">", pat, i) { if i >= 0 { Mismatch(">", pat, i, 0); } }
  }

  lemma CloseHere(pre: string, a: string, marker: string, b: string)
    requires (marker == LIB_END || marker == PROF_END) && Quiet(a, marker)
    ensures var s, c := pre + ">" + a + marker + b, |pre| + 1 + |a|;
            NextClose(s, |pre|, marker) == Some(c) && s[|pre| + 1..c] == a
  {
    hide Find, MatchAt, Quiet;
    var s := pre + ">" + a + marker + b;
    GtQuiet(marker);
    QuietConcat(">", a, marker);
    QuietSkip(">" + a, marker + b, marker);
    FindHere(marker, b);
    assert s[|pre|..] == (">" + a) + (marker + b);
  }

  lemma AfterBlockQuiet(p: Profile, pat: string)
    requires ProfileOk(p) && IsMarker(pat) && pat != PROF_END
    ensures Quiet(p.body + PROF_END + p.trail, pat)
  {
    EndQuiet(PROF_END, pat);
    QuietConcat(p.body, PROF_END, pat);
    QuietConcat(p.body + PROF_END, p.trail, pat);
  }

  lemma {:induction false} ProfilesQuiet(ps: seq<Profile>, pat: string)
    requires ProfilesOk(ps) && (pat == LIB || pat == LIB_END)
    ensures Quiet(RenderProfiles(ps), pat)
  {
    if ps != [] {
      var p := ps[0];
      OpenQuiet(PROF, p.attrs, pat);
      AfterBlockQuiet(p, pat);
      QuietConcat(p.lead, Open(PROF, p.attrs), pat);
      QuietConcat(p.lead + Open(PROF, p.attrs), p.body + PROF_END + p.trail, pat);
      assert RenderProfile(p) == p.lead + Open(PROF, p.attrs) + (p.body + PROF_END + p.trail);
      ProfilesQuiet(ps[1..], pat);
      QuietConcat(RenderProfile(p), RenderProfiles(ps[1..]), pat);
    }
  }
}
