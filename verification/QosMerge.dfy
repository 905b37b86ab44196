// Merging a profile into a library, as an edit of the document and of its text.
module QosMerge {
  import opened Wrappers
  import opened QosXml
  import opened QosDoc
  import opened QosReading
  import opened QosNaming

  function Named(x: Profile, name: string): Profile {
    x.(attrs := NewAttrs(x.attrs, name))
  }

  // Replaces the first profile of that name, or adds one at the end of the library.
  function MergeInto(l: Library, name: string, x: Profile): Library {
    var y, ps := Named(x, name), l.profiles;
    match ProfileIndex(ps, name)
    case Some(j) => l.(profiles := ps[j := Placed(ps[j].lead, y, ps[j].trail)])
    case None => l.(profiles := ps + [Placed(l.tail, y, "")], tail := "")
  }

  function Placed(before: string, y: Profile, after: string): Profile {
    y.(lead := before + "  " + y.lead, trail := y.trail + "\n" + after)
  }

  function DocMerge(ls: seq<Library>, lib: string, name: string, x: Profile): Option<seq<Library>> {
    match LibraryIndex(ls, lib)
    case None => None
    case Some(k) => Some(ls[k := MergeInto(ls[k], name, x)])
  }

  // A profile's text as it is written into a library.
  function Entry(text: string): string { "  " + text + "\n" }

  predicate NewProfileOk(x: Profile) {
    AttrsOk(x.attrs) && Nameable(x.attrs)
  }

  // ---------- The text of an edited document ----------

  lemma SpliceMiddle(pre: string, mid: string, post: string, a: nat, b: nat, z: string)
    requires a <= b <= |mid|
    ensures var s := pre + mid + post;
            s[..|pre| + a] + z + s[|pre| + b..] == pre + (mid[..a] + z + mid[b..]) + post
  {
    var s := pre + mid + post;
    assert s[..|pre| + a] == pre + mid[..a];
    assert s[|pre| + b..] == mid[b..] + post;
    assert pre + mid[..a] + z + (mid[b..] + post) == pre + (mid[..a] + z + mid[b..]) + post;
  }

  lemma PlacedRendered(before: string, y: Profile, after: string)
    ensures RenderProfile(Placed(before, y, after)) == before + ("  " + RenderProfile(y) + "\n") + after
  {
    hide Block;
    assert RenderProfile(y) == y.lead + Block(y) + y.trail;
    var p := Placed(before, y, after);
    assert Block(p) == Block(y) by { hide Block; BlockOf(p, y); }
    assert before + "  " + y.lead + Block(y) + (y.trail + "\n" + after)
        == before + ("  " + (y.lead + Block(y) + y.trail) + "\n") + after;
  }

  lemma BlockOf(p: Profile, q: Profile)
    requires p.attrs == q.attrs && p.body == q.body
    ensures Block(p) == Block(q)
  {
  }

  lemma FirstPieces(ps: seq<Profile>, p: Profile)
    requires ps != []
    ensures RenderProfiles(ps) == ps[0].lead + Block(ps[0]) + (ps[0].trail + RenderProfiles(ps[1..]))
    ensures RenderProfiles(ps[0 := p]) == RenderProfile(p) + RenderProfiles(ps[1..])
  {
    hide Block, RenderProfiles;
    var q, rest := ps[0], RenderProfiles(ps[1..]);
    assert ps[0 := p][1..] == ps[1..];
    RenderProfilesUnfold(ps);
    RenderProfilesUnfold(ps[0 := p]);
    assert q.lead + Block(q) + q.trail + rest == q.lead + Block(q) + (q.trail + rest);
  }

  lemma SpliceFirstProfile(ps: seq<Profile>, y: Profile)
    requires ps != []
    ensures var s, at, z, p := RenderProfiles(ps), |ps[0].lead|, "  " + RenderProfile(y) + "\n", ps[0];
            s == p.lead + Block(p) + (p.trail + RenderProfiles(ps[1..])) &&
            s[..at] + z + s[at + |Block(p)|..] == RenderProfiles(ps[0 := Placed(p.lead, y, p.trail)])
  {
    hide Block, Placed, RenderProfiles, RenderProfile;
    var z, p, rest := "  " + RenderProfile(y) + "\n", ps[0], RenderProfiles(ps[1..]);
    PlacedRendered(p.lead, y, p.trail);
    FirstPieces(ps, Placed(p.lead, y, p.trail));
    SpliceMiddle(p.lead, Block(p), p.trail + rest, 0, |Block(p)|, z);
    EmptySplice(p.lead, Block(p), z, p.trail, rest);
  }

  lemma EmptySplice(lead: string, block: string, z: string, trail: string, rest: string)
    ensures lead + (block[..0] + z + block[|block|..]) + (trail + rest) == lead + z + trail + rest
  {
    assert block[..0] + z + block[|block|..] == z;
  }

  // Replacing profile j.
  lemma {:induction false} SpliceProfile(ps: seq<Profile>, j: nat, y: Profile)
    requires j < |ps|
    ensures var s, at, z := RenderProfiles(ps), ProfileStart(ps, j), "  " + RenderProfile(y) + "\n";
            var end := at + |Block(ps[j])|;
            end <= |s| &&
            s[..at] + z + s[end..] == RenderProfiles(ps[j := Placed(ps[j].lead, y, ps[j].trail)])
    decreases j
  {
    hide Block, Placed, RenderProfile, RenderProfiles, ProfileStart;
    ProfileStartUnfold(ps, j);
    if j == 0 {
      SpliceFirstProfile(ps, y);
    } else {
      var p, rest := ps[0], ps[1..];
      SpliceProfile(rest, j - 1, y);
      var q := Placed(ps[j].lead, y, ps[j].trail);
      assert ps[j := q][1..] == rest[j - 1 := q];
      RenderProfilesUnfold(ps);
      RenderProfilesUnfold(ps[j := q]);
      var at := ProfileStart(rest, j - 1);
      SpliceAfter(RenderProfile(p), RenderProfiles(rest), at, at + |Block(ps[j])|, "  " + RenderProfile(y) + "\n");
    }
  }

  lemma ProfileStartUnfold(ps: seq<Profile>, k: nat)
    requires k < |ps|
    ensures ProfileStart(ps, k) ==
            if k == 0 then |ps[0].lead| else |RenderProfile(ps[0])| + ProfileStart(ps[1..], k - 1)
  {
    hide RenderProfile;
  }

  lemma {:induction false} AppendProfile(ps: seq<Profile>, q: Profile)
    ensures RenderProfiles(ps + [q]) == RenderProfiles(ps) + RenderProfile(q)
  {
    hide RenderProfile;
    if ps == [] {
      assert ps + [q] == [q] && RenderProfiles([q]) == RenderProfile(q) + RenderProfiles([]);
    } else {
      AppendProfile(ps[1..], q);
      assert (ps + [q])[1..] == ps[1..] + [q];
    }
  }

  // The edit of the inside of a library: what is replaced, by what.
  function Edit(l: Library, name: string): Span {
    match ProfileSpan(l.profiles, name, 0)
    case Some(t) => t
    case None => Span(|Inside(l)|, |Inside(l)|)
  }

  lemma InsideMerged(l: Library, name: string, x: Profile)
    ensures var e, s, z := Edit(l, name), Inside(l), "  " + RenderProfile(Named(x, name)) + "\n";
            && e.at <= e.end <= |s|
            && Inside(MergeInto(l, name, x)) == s[..e.at] + z + s[e.end..]
  {
    hide RenderProfile, Block, Placed, ProfileIndex, ProfileStart, Named, RenderProfiles, NameIn;
    var y, ps := Named(x, name), l.profiles;
    match ProfileIndex(ps, name)
    case Some(j) =>
      var z := "  " + RenderProfile(y) + "\n";
      SpliceProfile(ps, j, y);
      var r, at := RenderProfiles(ps), ProfileStart(ps, j);
      SpliceMiddle("", r, l.tail, at, at + |Block(ps[j])|, z);
      assert "" + r + l.tail == Inside(l);
    case None =>
      InsideAppended(l, y);
  }

  lemma InsideAppended(l: Library, y: Profile)
    ensures Inside(l.(profiles := l.profiles + [Placed(l.tail, y, "")], tail := "")) ==
            Inside(l)[..|Inside(l)|] + ("  " + RenderProfile(y) + "\n") + Inside(l)[|Inside(l)|..]
  {
    hide RenderProfile, Placed, RenderProfiles;
    AppendProfile(l.profiles, Placed(l.tail, y, ""));
    PlacedRendered(l.tail, y, "");
    var z, r := "  " + RenderProfile(y) + "\n", RenderProfiles(l.profiles);
    assert r + (l.tail + z + "") + "" == (r + l.tail) + z + "";
  }

  lemma LibraryFirst(ls: seq<Library>)
    requires ls != []
    ensures RenderLibraries(ls) ==
            (ls[0].lead + Open(LIB, ls[0].attrs)) + Inside(ls[0]) + (LIB_END + RenderLibraries(ls[1..]))
  {
    hide Inside, Open;
  }

  lemma SpliceFirstLibrary(ls: seq<Library>, l: Library, a: nat, b: nat, z: string)
    requires ls != [] && l.lead == ls[0].lead && l.attrs == ls[0].attrs
    requires a <= b <= |Inside(ls[0])| && Inside(l) == Inside(ls[0])[..a] + z + Inside(ls[0])[b..]
    ensures var s, at := RenderLibraries(ls), |ls[0].lead + Open(LIB, ls[0].attrs)|;
            at + |Inside(ls[0])| <= |s| &&
            s[..at + a] + z + s[at + b..] == RenderLibraries(ls[0 := l])
  {
    hide Inside, Open, RenderLibraries, LIB, LIB_END;
    LibraryFirst(ls);
    LibraryFirst(ls[0 := l]);
    assert ls[0 := l][0] == l && ls[0 := l][1..] == ls[1..];
    var pre, post := ls[0].lead + Open(LIB, ls[0].attrs), LIB_END + RenderLibraries(ls[1..]);
    SpliceMiddle(pre, Inside(ls[0]), post, a, b, z);
  }

  lemma {:induction false} SpliceLibrary(ls: seq<Library>, k: nat, l: Library, a: nat, b: nat, z: string)
    requires k < |ls| && l.lead == ls[k].lead && l.attrs == ls[k].attrs
    requires a <= b <= |Inside(ls[k])| && Inside(l) == Inside(ls[k])[..a] + z + Inside(ls[k])[b..]
    ensures var s, at := RenderLibraries(ls), LibraryStart(ls, k);
            at + |Inside(ls[k])| <= |s| &&
            s[..at + a] + z + s[at + b..] == RenderLibraries(ls[k := l])
    decreases k
  {
    hide Inside, Open, RenderLibrary, RenderLibraries, LibraryStart;
    LibraryStartUnfold(ls, k);
    if k == 0 {
      SpliceFirstLibrary(ls, l, a, b, z);
      assert |ls[0].lead + Open(LIB, ls[0].attrs)| == |ls[0].lead| + |Open(LIB, ls[0].attrs)|;
    } else {
      var h, rest := ls[0], ls[1..];
      var at, r := LibraryStart(rest, k - 1), RenderLibraries(rest);
      assert ls[k := l][1..] == rest[k - 1 := l];
      RenderLibrariesUnfold(ls);
      RenderLibrariesUnfold(ls[k := l]);
      SpliceLibrary(rest, k - 1, l, a, b, z);
      SpliceAfter(RenderLibrary(h), r, at + a, at + b, z);
    }
  }

  lemma SpliceAfter(pre: string, s: string, a: nat, b: nat, z: string)
    requires a <= b <= |s|
    ensures (pre + s)[..|pre| + a] + z + (pre + s)[|pre| + b..] == pre + (s[..a] + z + s[b..])
  {
    assert pre + s + "" == pre + s;
    SpliceMiddle(pre, s, "", a, b, z);
  }

  // ---------- Merging text is merging the document ----------

  lemma RenamedRendered(x: Profile, name: string)
    requires ProfileOk(x) && NewProfileOk(x) && NameFree(name)
    ensures Renamed(RenderProfile(x), name) == Some(RenderProfile(Named(x, name)))
  {
    RenameOk(x.attrs, name);
    hide Quiet, NextTag, AttrsOk, Nameable, NameFree, RenameOpening, NewAttrs, Mentions, NameOf;
    var y := Named(x, name);
    ProfilePieces(x);
    ProfilePieces(y);
    assert After(x) == After(y);
    hide RenderProfile, After, Open;
    TagHere(x.lead, PROF, x.attrs, After(x));
    var s := x.lead + Open(PROF, x.attrs) + After(x);
    assert s[..|x.lead|] == x.lead;
  }

  // The whole text of a document.
  function Render(ls: seq<Library>, trail: string): string { RenderLibraries(ls) + trail }

  ghost predicate DocOk(ls: seq<Library>, trail: string) {
    LibrariesOk(ls) && Plain(trail)
  }

  lemma EditFound(l: Library, name: string)
    requires LibraryOk(l)
    ensures match FindProfile(Inside(l), name)
            case None => Edit(l, name) == Span(|Inside(l)|, |Inside(l)|)
            case Some(p) => Edit(l, name) == p
  {
    hide Quiet, ProfilesOk, FindProfile, RenderProfiles, ProfileSpan, AttrsOk;
    EmptyQuiet(PROF);
    assert "" + RenderProfiles(l.profiles) + l.tail == Inside(l);
    ProfileFound("", l.profiles, l.tail, name);
  }

  lemma MergeText(ls: seq<Library>, trail: string, k: nat, name: string, x: Profile)
    requires k < |ls|
    ensures var s, at, e := Render(ls, trail), LibraryStart(ls, k), Edit(ls[k], name);
            var z := Entry(RenderProfile(Named(x, name)));
            && e.at <= e.end <= |Inside(ls[k])| && at + |Inside(ls[k])| <= |s|
            && s[at..at + |Inside(ls[k])|] == Inside(ls[k])
            && s[..at + e.at] + z + s[at + e.end..] == Render(ls[k := MergeInto(ls[k], name, x)], trail)
  {
    hide NewAttrs, RenderProfile, RenderLibraries, LibraryStart, Edit, Inside, MergeInto, Named;
    var z := "  " + RenderProfile(Named(x, name)) + "\n";
    InsideMerged(ls[k], name, x);
    var e := Edit(ls[k], name);
    assert MergeInto(ls[k], name, x).lead == ls[k].lead && MergeInto(ls[k], name, x).attrs == ls[k].attrs by {
      SameTag(ls[k], name, x);
    }
    SpliceLibrary(ls, k, MergeInto(ls[k], name, x), e.at, e.end, z);
    InsideAt(ls, k);
    var r, at := RenderLibraries(ls), LibraryStart(ls, k);
    SpliceMiddle("", r, trail, at + e.at, at + e.end, z);
    assert Render(ls, trail) == "" + r + trail;
  }

  lemma SameTag(l: Library, name: string, x: Profile)
    ensures MergeInto(l, name, x).lead == l.lead && MergeInto(l, name, x).attrs == l.attrs
  {
    hide ProfileIndex, NewAttrs, Placed, NameIn;
  }

  lemma {:induction false} MergeAt(s: string, lib: string, name: string, x: string, y: string, at: nat,
                                   inside: string, e: Span)
    requires Renamed(x, name) == Some(y) && FindLibrary(s, lib) == Some(Span(at, at + |inside|))
    requires at + |inside| <= |s| && s[at..at + |inside|] == inside && e.at <= e.end <= |inside|
    requires match FindProfile(inside, name)
             case None => e == Span(|inside|, |inside|)
             case Some(p) => e == p
    ensures Merge(s, lib, name, x) == s[..at + e.at] + Entry(y) + s[at + e.end..]
  {
    hide Renamed, FindLibrary, FindProfile, Entry;
    EntryRegroup(s[..at + e.at], y, s[at + e.end..]);
  }

  lemma EntryRegroup(u: string, y: string, v: string)
    ensures u + "  " + y + "\n" + v == u + Entry(y) + v
  {
    assert u + "  " + y + "\n" + v == u + ("  " + y + "\n") + v;
  }

  lemma MergeNowhere(s: string, lib: string, name: string, x: string)
    requires FindLibrary(s, lib) == None
    ensures Merge(s, lib, name, x) == ""
  {
    hide Renamed, FindLibrary, FindProfile;
  }

  lemma {:induction false} NoNamelessLibrary(s: string)
    ensures FindLibrary(s, "") == None
    decreases |s|
  {
    hide NextTag, NextClose, NameOf, FindLibrary;
    FindLibraryUnfold(s, "");
    var t := NextTag(s, LIB);
    if t.Some? { NoNamelessLibrary(s[t.value.end + 1..]); }
  }

  // The empty library name never matches, on any text.
  lemma MergeNameless(s: string, name: string, x: string)
    ensures Merge(s, "", name, x) == ""
  {
    hide Renamed, FindLibrary, FindProfile;
    NoNamelessLibrary(s);
    MergeNowhere(s, "", name, x);
  }

  lemma LibraryHere(ls: seq<Library>, trail: string, lib: string)
    requires DocOk(ls, trail) && lib != ""
    ensures FindLibrary(Render(ls, trail), lib) == LibrarySpan(ls, lib, 0)
  {
    hide Quiet, FindLibrary, LibraryOk, RenderLibraries, LibrarySpan;
    EmptyQuiet(LIB);
    assert "" + RenderLibraries(ls) + trail == Render(ls, trail);
    LibraryFound("", ls, trail, lib);
  }

  lemma LibrarySpanIs(ls: seq<Library>, lib: string, k: nat)
    requires LibraryIndex(ls, lib) == Some(k)
    ensures LibrarySpan(ls, lib, 0) == Some(Span(LibraryStart(ls, k), LibraryStart(ls, k) + |Inside(ls[k])|))
  {
    hide LibraryIndex, LibraryStart, Inside, NameIn;
  }

  lemma DocLibraryOk(ls: seq<Library>, trail: string, k: nat)
    requires DocOk(ls, trail) && k < |ls|
    ensures LibraryOk(ls[k])
  {
    hide LibraryOk;
  }

  lemma MergeFound(ls: seq<Library>, trail: string, lib: string, name: string, x: Profile, k: nat)
    requires DocOk(ls, trail) && lib != "" && LibraryIndex(ls, lib) == Some(k)
    requires ProfileOk(x) && NewProfileOk(x) && NameFree(name)
    ensures Merge(Render(ls, trail), lib, name, RenderProfile(x)) == Render(ls[k := MergeInto(ls[k], name, x)], trail)
  {
    hide DocOk, ProfileOk, NewProfileOk, NameFree, Renamed, FindLibrary, FindProfile, RenderProfile, LibrarySpan,
         LibraryIndex, LibraryStart, Inside, MergeInto, LibraryOk, Edit, Named, Merge, Render, Entry, NameIn;
    LibraryHere(ls, trail, lib);
    LibrarySpanIs(ls, lib, k);
    DocLibraryOk(ls, trail, k);
    RenamedRendered(x, name);
    MergeText(ls, trail, k, name, x);
    EditFound(ls[k], name);
    MergeAt(Render(ls, trail), lib, name, RenderProfile(x), RenderProfile(Named(x, name)),
            LibraryStart(ls, k), Inside(ls[k]), Edit(ls[k], name));
  }

  // Merging the texts is merging the documents; with no library of that name it fails.
  lemma MergeRendered(ls: seq<Library>, trail: string, lib: string, name: string, x: Profile)
    requires DocOk(ls, trail) && lib != ""
    requires ProfileOk(x) && NewProfileOk(x) && NameFree(name)
    ensures Merge(Render(ls, trail), lib, name, RenderProfile(x)) ==
            match DocMerge(ls, lib, name, x)
            case None => ""
            case Some(m) => Render(m, trail)
  {
    hide DocOk, ProfileOk, NewProfileOk, NameFree, FindLibrary, RenderProfile, LibraryIndex, LibraryStart, Inside,
         NameIn,
         MergeInto, Merge, Render;
    if LibraryIndex(ls, lib).None? {
      LibraryHere(ls, trail, lib);
      MergeNowhere(Render(ls, trail), lib, name, RenderProfile(x));
    } else {
      MergeFound(ls, trail, lib, name, x, LibraryIndex(ls, lib).value);
    }
  }

  lemma {:induction false} InsideAt(ls: seq<Library>, k: nat)
    requires k < |ls|
    ensures var s, at, n := RenderLibraries(ls), LibraryStart(ls, k), |Inside(ls[k])|;
            at + n <= |s| && s[at..at + n] == Inside(ls[k])
    decreases k
  {
    hide Inside, Open, RenderLibraries, RenderLibrary, LibraryStart;
    var h, r := ls[0], RenderLibraries(ls[1..]);
    LibraryStartUnfold(ls, k);
    if k == 0 {
      LibraryFirst(ls);
      CutOut(h.lead + Open(LIB, h.attrs), Inside(h), LIB_END + r);
    } else {
      InsideAt(ls[1..], k - 1);
      RenderLibrariesUnfold(ls);
      var at, n := LibraryStart(ls[1..], k - 1), |Inside(ls[k])|;
      CutAfter(RenderLibrary(h), r, at, at + n);
    }
  }

  lemma CutOut(a: string, b: string, c: string)
    ensures (a + b + c)[|a|..|a| + |b|] == b
  {
  }

  lemma CutAfter(a: string, b: string, i: nat, j: nat)
    requires i <= j <= |b|
    ensures (a + b)[|a| + i..|a| + j] == b[i..j]
  {
  }
}
