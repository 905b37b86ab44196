// Merging the same profile twice: the last one wins, up to compression.
module QosLastWrite {
  import opened Wrappers
  import opened QosXml
  import opened QosDoc
  import opened QosReading
  import opened QosNaming
  import opened QosMerge
  import opened QosLaws
  import opened QosCompress

  // ---------- Where the compressor stands in a document ----------

  // A text whose last angle bracket is '>' leaves the compressor between tags.
  lemma {:induction false} ClosedStays(s: string)
    requires Closed(s)
    ensures ModeAfter(Content, s) == Content
    decreases |s|
  {
    hide ModeAfter, Closed;
    if '<' in s {
      var n := TagEnd(s);
      CutAtTag(s, n);
      AfterTag(Content, s[..n]);
      SqueezeConcat(Content, s[..n] + ">", s[n + 1..]);
      ClosedTail(s, n + 1);
      ClosedStays(s[n + 1..]);
    } else {
      NoTagStays(s);
    }
  }

  lemma CutAtTag(s: string, n: nat)
    requires n < |s| && s[n] == '>'
    ensures s == (s[..n] + ">") + s[n + 1..]
  {
  }

  lemma TagEnd(s: string) returns (n: nat)
    requires Closed(s) && '<' in s
    ensures n < |s| && s[n] == '>'
  {
    var i :| 0 <= i < |s| && s[i] == '<';
    var j :| 0 <= j < |s[i + 1..]| && s[i + 1..][j] == '>';
    n := i + 1 + j;
  }

  lemma ClosedTail(s: string, n: nat)
    requires Closed(s) && n <= |s|
    ensures Closed(s[n..])
  {
    forall i | 0 <= i < |s[n..]| && s[n..][i] == '<' ensures '>' in s[n..][i + 1..] {
      assert s[n..][i + 1..] == s[n + i + 1..];
    }
  }

  lemma {:induction false} NoTagStays(s: string)
    requires '<' !in s
    ensures ModeAfter(Content, s) == Content
    decreases |s|
  {
    if s != "" { NoTagStays(s[1..]); }
  }

  lemma OpenEnds(m: Mode, pre: string, marker: string, attrs: string)
    ensures ModeAfter(m, pre + Open(marker, attrs)) == Content
  {
    hide ModeAfter;
    assert pre + Open(marker, attrs) == (pre + marker + attrs) + ">";
    AfterTag(m, pre + marker + attrs);
  }

  lemma PlainStays(a: string, s: string)
    requires ModeAfter(Content, a) == Content && Plain(s)
    ensures ModeAfter(Content, a + s) == Content
  {
    ClosedStays(s);
    SqueezeConcat(Content, a, s);
  }

  lemma EndStays()
    ensures ModeAfter(Content, PROF_END) == Content
  {
    var s := "</qos_profile";
    assert PROF_END == s + ">";
    AfterTag(Content, s);
  }

  lemma AfterStays(p: Profile)
    requires ProfileOk(p)
    ensures ModeAfter(Content, After(p)) == Content
  {
    hide ModeAfter, Plain, AttrsOk, PROF_END;
    EmptyStays();
    PlainStays("", p.body);
    assert "" + p.body == p.body;
    EndStays();
    SqueezeConcat(Content, p.body, PROF_END);
    PlainStays(p.body + PROF_END, p.trail);
  }

  lemma ProfileStays(p: Profile)
    requires ProfileOk(p)
    ensures ModeAfter(Content, RenderProfile(p)) == Content
  {
    hide ModeAfter, ProfileOk, PROF, After, Open, RenderProfile;
    OpenEnds(Content, p.lead, PROF, p.attrs);
    AfterStays(p);
    ProfilePieces(p);
    SqueezeConcat(Content, p.lead + Open(PROF, p.attrs), After(p));
  }

  lemma EmptyStays()
    ensures ModeAfter(Content, "") == Content
  {
  }

  // Up to the slot of an edit inside a library.
  lemma {:induction false} UpToProfile(ps: seq<Profile>, j: nat)
    requires ProfilesOk(ps) && j < |ps|
    ensures ProfileStart(ps, j) <= |RenderProfiles(ps)|
    ensures ModeAfter(Content, RenderProfiles(ps)[..ProfileStart(ps, j)]) == Content
    decreases ps
  {
    hide ModeAfter, Plain, RenderProfile;
    var r, n := RenderProfiles(ps), ProfileStart(ps, j);
    if j == 0 {
      assert RenderProfile(ps[0]) == ps[0].lead + (Block(ps[0]) + ps[0].trail) by { LeadFirst(ps[0]); }
      assert r[..n] == ps[0].lead;
      PlainStays("", ps[0].lead) by { EmptyStays(); }
      assert "" + ps[0].lead == ps[0].lead;
    } else {
      UpToProfile(ps[1..], j - 1);
      ProfileStays(ps[0]);
      var t := RenderProfiles(ps[1..])[..ProfileStart(ps[1..], j - 1)];
      assert r[..n] == RenderProfile(ps[0]) + t;
      SqueezeConcat(Content, RenderProfile(ps[0]), t);
    }
  }

  lemma LeadFirst(p: Profile)
    ensures RenderProfile(p) == p.lead + (Block(p) + p.trail)
  {
    hide Block;
  }

  lemma {:induction false} ProfilesStay(ps: seq<Profile>)
    requires ProfilesOk(ps)
    ensures ModeAfter(Content, RenderProfiles(ps)) == Content
    decreases ps
  {
    hide ProfileOk, RenderProfile;
    if ps != [] {
      ProfileStays(ps[0]);
      ProfilesStay(ps[1..]);
      SqueezeConcat(Content, RenderProfile(ps[0]), RenderProfiles(ps[1..]));
    }
  }

  lemma UpToEdit(l: Library, name: string)
    requires LibraryOk(l)
    ensures Edit(l, name).at <= |Inside(l)|
    ensures ModeAfter(Content, Inside(l)[..Edit(l, name).at]) == Content
  {
    hide ModeAfter, ProfileOk, Plain, RenderProfiles, ProfileStart, AttrsOk, ProfileIndex, Block, NameIn;
    match ProfileIndex(l.profiles, name)
    case Some(j) =>
      UpToProfile(l.profiles, j);
      var r, n := RenderProfiles(l.profiles), ProfileStart(l.profiles, j);
      assert Inside(l)[..n] == r[..n];
      assert Edit(l, name).at == n;
    case None =>
      ProfilesStay(l.profiles);
      PlainStays(RenderProfiles(l.profiles), l.tail);
      assert Inside(l)[..|Inside(l)|] == Inside(l);
  }

  // The inside of a library starts after a '>'.
  lemma LibraryOpens(ls: seq<Library>, k: nat)
    requires k < |ls|
    ensures LibraryStart(ls, k) <= |RenderLibraries(ls)|
    ensures ModeAfter(Start, RenderLibraries(ls)[..LibraryStart(ls, k)]) == Content
    decreases k
  {
    AnyModeOpens(Start, ls, k);
  }

  lemma {:induction false} AnyModeOpens(m: Mode, ls: seq<Library>, k: nat)
    requires k < |ls|
    ensures LibraryStart(ls, k) <= |RenderLibraries(ls)|
    ensures ModeAfter(m, RenderLibraries(ls)[..LibraryStart(ls, k)]) == Content
    decreases k
  {
    hide ModeAfter, Inside;
    var h, r, n := ls[0], RenderLibraries(ls), LibraryStart(ls, k);
    if k == 0 {
      LibraryFirst(ls);
      hide Open;
      assert r[..n] == h.lead + Open(LIB, h.attrs);
      OpenEnds(m, h.lead, LIB, h.attrs);
    } else {
      hide RenderLibrary;
      AnyModeOpens(ModeAfter(m, RenderLibrary(h)), ls[1..], k - 1);
      var t := RenderLibraries(ls[1..])[..LibraryStart(ls[1..], k - 1)];
      assert r[..n] == RenderLibrary(h) + t;
      SqueezeConcat(m, RenderLibrary(h), t);
    }
  }

  // ---------- Merging twice ----------

  // The profile a merge places, found again: where its block is.
  lemma {:induction false} StartReplaced(ps: seq<Profile>, j: nat, q: Profile)
    requires j < |ps|
    ensures ProfileStart(ps[j := q], j) == ProfileStart(ps, j) - |ps[j].lead| + |q.lead|
    decreases j
  {
    hide RenderProfile;
    if j > 0 {
      StartReplaced(ps[1..], j - 1, q);
      assert ps[j := q][1..] == ps[1..][j - 1 := q];
    }
  }

  lemma {:induction false} StartAppended(ps: seq<Profile>, q: Profile)
    ensures ProfileStart(ps + [q], |ps|) == |RenderProfiles(ps)| + |q.lead|
    decreases ps
  {
    hide RenderProfile;
    if ps != [] {
      StartAppended(ps[1..], q);
      assert (ps + [q])[1..] == ps[1..] + [q];
    }
  }

  lemma {:induction false} IndexIs(ps: seq<Profile>, name: string, j: nat)
    requires j < |ps| && NameIn(PROF, ps[j].attrs) == name
    requires forall i :: 0 <= i < j ==> NameIn(PROF, ps[i].attrs) != name
    ensures ProfileIndex(ps, name) == Some(j)
    decreases ps
  {
    hide NameIn;
    if j > 0 { IndexIs(ps[1..], name, j - 1); }
  }

  lemma EditAgain(l: Library, name: string, x: Profile)
    requires NewProfileOk(x) && NameFree(name)
    ensures var e, at := Edit(MergeInto(l, name, x), name), Edit(l, name).at + 2 + |x.lead|;
            e == Span(at, at + |Block(Named(x, name))|)
  {
    MergedProfiles(l, name, x);
    SlotFirst(l.profiles, name);
    RenameOk(x.attrs, name);
    hide AttrsOk, Nameable, NameFree, NewAttrs, RenameOpening, NameOf, Mentions, Open, Block, RenderProfiles,
         ProfileStart,
         RenderProfile;
    var j, m, y := Slot(l.profiles, name), MergeInto(l, name, x), Named(x, name);
    IndexIs(m.profiles, name, j);
    if ProfileIndex(l.profiles, name).Some? {
      StartReplaced(l.profiles, j, m.profiles[j]);
    } else {
      StartAppended(l.profiles, m.profiles[j]);
    }
  }

  lemma {:induction false} StartKept(ls: seq<Library>, k: nat, l: Library)
    requires k < |ls| && l.lead == ls[k].lead && l.attrs == ls[k].attrs
    ensures LibraryStart(ls[k := l], k) == LibraryStart(ls, k)
    decreases k
  {
    hide RenderLibrary, Open;
    if k > 0 {
      StartKept(ls[1..], k - 1, l);
      assert ls[k := l][1..] == ls[1..][k - 1 := l];
    }
  }

  lemma {:induction false} FoundAgain(ls: seq<Library>, lib: string, k: nat, l: Library)
    requires LibraryIndex(ls, lib) == Some(k) && l.attrs == ls[k].attrs
    ensures LibraryIndex(ls[k := l], lib) == Some(k)
    decreases k
  {
    hide NameIn;
    if k > 0 {
      FoundAgain(ls[1..], lib, k - 1, l);
      assert ls[k := l][1..] == ls[1..][k - 1 := l];
    } else {
      assert ls[k := l][0] == l;
    }
  }

  // Writing za at a place, then zb over the block in the middle of za.
  lemma SpliceTwice(pre: string, u: string, block: string, v: string, post: string, zb: string)
    ensures var s, at := pre + (u + block + v) + post, |pre| + |u|;
            s[..at] + zb + s[at + |block|..] == pre + (u + zb + v) + post
  {
    var s, at := pre + (u + block + v) + post, |pre| + |u|;
    assert s[..at] == pre + u;
    assert s[at + |block|..] == v + post;
    assert pre + u + zb + (v + post) == pre + (u + zb + v) + post;
  }

  lemma PlacedText(y: Profile)
    ensures "  " + RenderProfile(y) + "\n" == ("  " + y.lead) + Block(y) + (y.trail + "\n")
  {
    hide Block;
    assert RenderProfile(y) == y.lead + Block(y) + y.trail;
    assert "  " + (y.lead + Block(y) + y.trail) + "\n" == ("  " + y.lead) + Block(y) + (y.trail + "\n");
  }

  // The text after the second merge: the first one left only the white space around its block.
  lemma TwiceText(ls: seq<Library>, trail: string, k: nat, name: string, a: Profile, b: Profile)
    requires k < |ls| && NewProfileOk(a) && NewProfileOk(b) && NameFree(name)
    ensures var l := MergeInto(ls[k], name, a);
            var s, cut := Render(ls, trail), LibraryStart(ls, k);
            var e, zb := Edit(ls[k], name), "  " + RenderProfile(Named(b, name)) + "\n";
            && e.at <= e.end && cut + e.end <= |s|
            && Render(ls[k := MergeInto(l, name, b)], trail) ==
               s[..cut + e.at] + (("  " + a.lead) + zb + (a.trail + "\n")) + s[cut + e.end..]
            && Render(ls[k := MergeInto(ls[k], name, b)], trail) == s[..cut + e.at] + zb + s[cut + e.end..]
  {
    hide NewProfileOk, NameFree, NewAttrs, RenderProfile, Render, LibraryStart, Edit, Inside, MergeInto, Block;
    var l := MergeInto(ls[k], name, a);
    var s, cut, e := Render(ls, trail), LibraryStart(ls, k), Edit(ls[k], name);
    var ya := Named(a, name);
    MergeText(ls, trail, k, name, a);
    MergeText(ls, trail, k, name, b);
    SameTag(ls[k], name, a);
    StartKept(ls, k, l);
    EditAgain(ls[k], name, a);
    MergeText(ls[k := l], trail, k, name, b);
    assert ls[k := l][k := MergeInto(l, name, b)] == ls[k := MergeInto(l, name, b)];
    PlacedText(ya);
    SpliceTwice(s[..cut + e.at], "  " + a.lead, Block(ya), a.trail + "\n", s[cut + e.end..],
                "  " + RenderProfile(Named(b, name)) + "\n");
  }

  // What a first merge leaves around its block.
  lemma AroundStays(a: Profile)
    requires ProfileOk(a)
    ensures ModeAfter(Content, "  " + a.lead) == Content && ModeAfter(Content, a.trail + "\n") == Content
    ensures Blank("  " + a.lead) == Blank(a.lead) && Blank(a.trail + "\n") == Blank(a.trail)
  {
    hide ModeAfter, Plain, AttrsOk;
    BlankVanishes("  ");
    BlankVanishes("\n");
    PlainStays("  ", a.lead);
    EmptyStays();
    PlainStays("", a.trail);
    assert "" + a.trail == a.trail;
    SqueezeConcat(Content, a.trail, "\n");
    BlankConcat("  ", a.lead);
    BlankConcat(a.trail, "\n");
  }

  lemma BlankConcat(a: string, b: string)
    ensures Blank(a + b) <==> Blank(a) && Blank(b)
  {
    var s := a + b;
    if Blank(s) {
      forall i | 0 <= i < |a| ensures IsBlank(a[i]) { assert s[i] == a[i]; }
      forall i | 0 <= i < |b| ensures IsBlank(b[i]) { assert s[|a| + i] == b[i]; }
    }
  }

  // Up to the place of the edit the compressor is between tags.
  lemma UpToCut(ls: seq<Library>, trail: string, k: nat, name: string)
    requires k < |ls| && LibraryOk(ls[k])
    ensures var cut := LibraryStart(ls, k) + Edit(ls[k], name).at;
            cut <= |Render(ls, trail)| && ModeAfter(Start, Render(ls, trail)[..cut]) == Content
  {
    hide LibraryOk, ModeAfter, RenderLibraries, LibraryStart, Inside, Edit;
    LibraryOpens(ls, k);
    UpToEdit(ls[k], name);
    InsideAt(ls, k);
    var r, at, n := RenderLibraries(ls), LibraryStart(ls, k), Edit(ls[k], name).at;
    assert r[at..at + |Inside(ls[k])|][..n] == r[at..at + n];
    assert Render(ls, trail)[..at + n] == r[..at] + Inside(ls[k])[..n];
    SqueezeConcat(Start, r[..at], Inside(ls[k])[..n]);
  }

  lemma PlacedStays(y: Profile)
    requires ProfileOk(y)
    ensures ModeAfter(Content, "  " + RenderProfile(y) + "\n") == Content
  {
    hide ProfileOk, RenderProfile, ModeAfter;
    BlankVanishes("  ");
    BlankVanishes("\n");
    ProfileStays(y);
    SqueezeConcat(Content, "  ", RenderProfile(y));
    SqueezeConcat(Content, "  " + RenderProfile(y), "\n");
  }

  lemma NamedOk(x: Profile, name: string)
    requires ProfileOk(x) && NewProfileOk(x) && NameFree(name)
    ensures ProfileOk(Named(x, name))
  {
    RenameOk(x.attrs, name);
    hide Plain, AttrsOk, Nameable, NameFree, NewAttrs, RenameOpening, NameIn, Mentions, Open;
  }

  // Two texts that differ in u and v around w compress to the same exactly when these are white space.
  lemma AroundCompressed(x: string, y: string, pre: string, u: string, w: string, v: string, post: string)
    requires x == pre + (u + w + v) + post && y == pre + w + post
    requires ModeAfter(Start, pre) == Content
    requires ModeAfter(Content, u) == Content && ModeAfter(Content, w) == Content && ModeAfter(Content, v) == Content
    ensures Compress(x) == Compress(y) <==> Blank(u) && Blank(v)
  {
    hide ModeAfter, Compress, Blank;
    BlanksBetweenTags(pre, u, w, v, post);
  }

  lemma TwiceCompressed(ls: seq<Library>, trail: string, k: nat, name: string, a: Profile, b: Profile)
    requires k < |ls| && LibraryOk(ls[k]) && NewProfileOk(a) && NewProfileOk(b) && NameFree(name)
    requires ProfileOk(a) && ProfileOk(b)
    ensures Compress(Render(ls[k := MergeInto(MergeInto(ls[k], name, a), name, b)], trail)) ==
            Compress(Render(ls[k := MergeInto(ls[k], name, b)], trail)) <==>
            Blank(a.lead) && Blank(a.trail)
  {
    hide LibraryOk, ProfileOk, NewProfileOk, NameFree, ModeAfter, RenderProfile, Render, LibraryStart, Edit,
         MergeInto, Named,
         Compress, Blank;
    AroundStays(a);
    TwiceText(ls, trail, k, name, a, b);
    UpToCut(ls, trail, k, name);
    NamedOk(b, name);
    PlacedStays(Named(b, name));
    var s, cut, e := Render(ls, trail), LibraryStart(ls, k), Edit(ls[k], name);
    AroundCompressed(Render(ls[k := MergeInto(MergeInto(ls[k], name, a), name, b)], trail),
                     Render(ls[k := MergeInto(ls[k], name, b)], trail), s[..cut + e.at], "  " + a.lead,
                     "  " + RenderProfile(Named(b, name)) + "\n", a.trail + "\n", s[cut + e.end..]);
  }

  // The first of two merges leaves no trace exactly when its text had only white space around the block.
  lemma LastWriteWins(ls: seq<Library>, trail: string, lib: string, name: string, a: Profile, b: Profile)
    requires DocOk(ls, trail) && lib != "" && NameFree(name)
    requires ProfileOk(a) && NewProfileOk(a) && ProfileOk(b) && NewProfileOk(b)
    requires Merge(Render(ls, trail), lib, name, RenderProfile(a)) != ""
    ensures var s, ta, tb := Render(ls, trail), RenderProfile(a), RenderProfile(b);
            Compress(Merge(Merge(s, lib, name, ta), lib, name, tb)) == Compress(Merge(s, lib, name, tb)) <==>
            Blank(a.lead) && Blank(a.trail)
  {
    hide DocOk, ProfileOk, NewProfileOk, NameFree, RenderProfile, Render, LibraryIndex, MergeInto, Merge, Compress,
         Blank,
         NameIn;
    MergedText(ls, trail, lib, name, a);
    var k := LibraryIndex(ls, lib).value;
    var l := MergeInto(ls[k], name, a);
    SameTag(ls[k], name, a);
    FoundAgain(ls, lib, k, l);
    MergeRendered(ls, trail, lib, name, b);
    MergeRendered(ls[k := l], trail, lib, name, b);
    assert ls[k := l][k := MergeInto(l, name, b)] == ls[k := MergeInto(l, name, b)];
    assert LibraryOk(ls[k]) by { DocLibraries(ls, trail); }
    TwiceCompressed(ls, trail, k, name, a, b);
  }
}
