// The scanners read exactly the libraries and profiles of the document behind the text.
module QosReading {
  import opened Wrappers
  import opened Text
  import opened QosXml
  import opened QosDoc

  function NameIn(marker: string, attrs: string): string { NameOf(Open(marker, attrs)) }

  function DocNames(ps: seq<Profile>): seq<string> {
    if ps == [] then []
    else
      var name := NameIn(PROF, ps[0].attrs);
      (if name == "" then [] else [name]) + DocNames(ps[1..])
  }

  function DocListing(ls: seq<Library>): seq<(string, string)> {
    if ls == [] then []
    else
      var name := NameIn(LIB, ls[0].attrs);
      (if name == "" then [] else Pairs(name, DocNames(ls[0].profiles))) + DocListing(ls[1..])
  }

  function DocBlock(ps: seq<Profile>, profile: string): Option<string> {
    if ps == [] then None
    else if Mentions(Open(PROF, ps[0].attrs), profile) then Some(Block(ps[0]))
    else DocBlock(ps[1..], profile)
  }

  function DocExtract(ls: seq<Library>, lib: string, profile: string): string {
    if ls == [] then ""
    else
      var found := if Mentions(Open(LIB, ls[0].attrs), lib) then DocBlock(ls[0].profiles, profile) else None;
      if found.Some? then found.value else DocExtract(ls[1..], lib, profile)
  }

  function ProfileIndex(ps: seq<Profile>, profile: string): (r: Option<nat>)
    ensures r.Some? ==> r.value < |ps| && NameIn(PROF, ps[r.value].attrs) == profile
  {
    if ps == [] then None
    else if NameIn(PROF, ps[0].attrs) == profile then Some(0)
    else Shift(ProfileIndex(ps[1..], profile), 1)
  }

  function LibraryIndex(ls: seq<Library>, lib: string): (r: Option<nat>)
    ensures r.Some? ==> r.value < |ls| && NameIn(LIB, ls[r.value].attrs) == lib
  {
    if ls == [] then None
    else if NameIn(LIB, ls[0].attrs) == lib then Some(0)
    else Shift(LibraryIndex(ls[1..], lib), 1)
  }

  // Where the block of profile k, and the inside of library k, start.
  function ProfileStart(ps: seq<Profile>, k: nat): nat
    requires k < |ps|
  {
    if k == 0 then |ps[0].lead| else |RenderProfile(ps[0])| + ProfileStart(ps[1..], k - 1)
  }

  function LibraryStart(ls: seq<Library>, k: nat): nat
    requires k < |ls|
  {
    if k == 0 then |ls[0].lead| + |Open(LIB, ls[0].attrs)| else |RenderLibrary(ls[0])| + LibraryStart(ls[1..], k - 1)
  }

  // ---------- One block at a time ----------

  function After(p: Profile): string { p.body + PROF_END + p.trail }

  lemma NoTag(s: string, marker: string)
    requires Quiet(s, marker) && (marker == LIB || marker == PROF)
    ensures NextTag(s, marker) == None
  {
    FindSpec(s, marker);
  }

  lemma Regroup(a: string, lead: string, open: string, after: string, rest: string, end: string)
    ensures a + (lead + open + after + rest) + end == (a + lead) + open + (after + rest + end)
  {
  }

  lemma ProfilePieces(p: Profile)
    ensures RenderProfile(p) == p.lead + Open(PROF, p.attrs) + After(p)
    ensures Block(p) == Open(PROF, p.attrs) + (p.body + PROF_END)
  {
  }

  lemma {:induction false} ProfileStep(a: string, ps: seq<Profile>, tail: string)
    requires ps != [] && ProfileOk(ps[0]) && Quiet(a, PROF)
    ensures var s, p, at := a + RenderProfiles(ps) + tail, ps[0], |a| + |ps[0].lead|;
            var n := at + |PROF| + |p.attrs|;
            && Quiet(After(p), PROF) && Quiet(">" + After(p), PROF)
            && NextTag(s, PROF) == Some(Span(at, n)) && s[at..n + 1] == Open(PROF, p.attrs)
            && s[n..] == (">" + After(p)) + RenderProfiles(ps[1..]) + tail
            && s[n + 1..] == After(p) + RenderProfiles(ps[1..]) + tail
  {
    hide Quiet, NextTag, AttrsOk, RenderProfile;
    var p := ps[0];
    AfterBlockQuiet(p, PROF);
    GtQuiet(PROF);
    QuietConcat(">", After(p), PROF);
    QuietConcat(a, p.lead, PROF);
    var rest := RenderProfiles(ps[1..]);
    ProfilePieces(p);
    Regroup(a, p.lead, Open(PROF, p.attrs), After(p), rest, tail);
    TagHere(a + p.lead, PROF, p.attrs, After(p) + rest + tail);
    hide After;
    assert ">" + (After(p) + rest + tail) == (">" + After(p)) + rest + tail;
  }

  lemma BlockHere(pre: string, attrs: string, body: string, post: string)
    requires Quiet(body, PROF_END)
    ensures var s, n := pre + Open(PROF, attrs) + body + PROF_END + post, |pre| + |PROF| + |attrs|;
            var c := n + 1 + |body|;
            && s[n] == '>' && NextClose(s, n, PROF_END) == Some(c)
            && s[|pre|..c + |PROF_END|] == Open(PROF, attrs) + (body + PROF_END)
  {
    hide Quiet, NextClose;
    var s := pre + Open(PROF, attrs) + body + PROF_END + post;
    CloseHere(pre + PROF + attrs, body, PROF_END, post);
    assert s == (pre + PROF + attrs) + ">" + body + PROF_END + post;
    assert s == pre + (Open(PROF, attrs) + (body + PROF_END)) + post;
  }

  lemma RenderProfilesUnfold(ps: seq<Profile>)
    requires ps != []
    ensures RenderProfiles(ps) == RenderProfile(ps[0]) + RenderProfiles(ps[1..])
  {
    hide RenderProfile;
  }

  lemma AfterRegroup(pre: string, open: string, body: string, end: string, trail: string, rest: string, tail: string)
    ensures pre + open + ((body + end + trail) + rest + tail) == pre + open + body + end + (trail + rest + tail)
  {
  }

  lemma ProfileClose(a: string, ps: seq<Profile>, tail: string)
    requires ps != [] && ProfileOk(ps[0])
    ensures var s, p, at := a + RenderProfiles(ps) + tail, ps[0], |a| + |ps[0].lead|;
            var n := at + |PROF| + |p.attrs|;
            && n < |s| && s[n] == '>' && NextClose(s, n, PROF_END) == Some(n + 1 + |p.body|)
            && s[at..n + 1 + |p.body| + |PROF_END|] == Block(p)
  {
    hide Quiet, NextClose, AttrsOk, RenderProfile, Open, Block, RenderProfiles;
    var p, rest := ps[0], RenderProfiles(ps[1..]);
    ProfilePieces(p);
    RenderProfilesUnfold(ps);
    Regroup(a, p.lead, Open(PROF, p.attrs), After(p), rest, tail);
    AfterRegroup(a + p.lead, Open(PROF, p.attrs), p.body, PROF_END, p.trail, rest, tail);
    BlockHere(a + p.lead, p.attrs, p.body, p.trail + rest + tail);
  }

  lemma LibraryPieces(l: Library)
    ensures RenderLibrary(l) == l.lead + Open(LIB, l.attrs) + (Inside(l) + LIB_END)
  {
    hide Inside, Open, LIB, LIB_END;
  }

  lemma RenderLibrariesUnfold(ls: seq<Library>)
    requires ls != []
    ensures RenderLibraries(ls) == RenderLibrary(ls[0]) + RenderLibraries(ls[1..])
  {
    hide RenderLibrary;
  }

  lemma LibraryStartUnfold(ls: seq<Library>, k: nat)
    requires k < |ls|
    ensures LibraryStart(ls, k) ==
            if k == 0 then |ls[0].lead| + |Open(LIB, ls[0].attrs)|
            else |RenderLibrary(ls[0])| + LibraryStart(ls[1..], k - 1)
  {
    hide RenderLibrary, Open;
  }

  // The text of a document, cut at its first library.
  lemma LibraryCut(a: string, ls: seq<Library>, trail: string)
    requires ls != []
    ensures var l, rest := ls[0], RenderLibraries(ls[1..]);
            var after := Inside(l) + LIB_END;
            && a + RenderLibraries(ls) + trail == (a + l.lead) + Open(LIB, l.attrs) + (after + rest + trail)
            && after + rest + trail == Inside(l) + LIB_END + (rest + trail)
  {
    hide Inside, Open, RenderLibrary, RenderLibraries, LIB, LIB_END;
    var l, rest := ls[0], RenderLibraries(ls[1..]);
    LibraryPieces(l);
    RenderLibrariesUnfold(ls);
    Regroup(a, l.lead, Open(LIB, l.attrs), Inside(l) + LIB_END, rest, trail);
  }

  lemma LibraryStep(a: string, ls: seq<Library>, trail: string)
    requires ls != [] && LibraryOk(ls[0]) && Quiet(a, LIB)
    ensures var s, l, at := a + RenderLibraries(ls) + trail, ls[0], |a| + |ls[0].lead|;
            var n := at + |LIB| + |l.attrs|;
            && Quiet(Inside(l) + LIB_END, LIB)
            && NextTag(s, LIB) == Some(Span(at, n)) && s[at..n + 1] == Open(LIB, l.attrs)
            && s[n + 1..] == (Inside(l) + LIB_END) + RenderLibraries(ls[1..]) + trail
            && NextClose(s, n, LIB_END) == Some(n + 1 + |Inside(l)|)
            && s[n + 1..n + 1 + |Inside(l)|] == Inside(l)
  {
    hide Quiet, NextTag, NextClose, AttrsOk, ProfilesOk, Inside, RenderLibrary, RenderLibraries, Open;
    var l, rest := ls[0], RenderLibraries(ls[1..]);
    InsideQuiet(l);
    QuietConcat(a, l.lead, LIB);
    LibraryCut(a, ls, trail);
    TagHere(a + l.lead, LIB, l.attrs, (Inside(l) + LIB_END) + rest + trail);
    LibraryClose(a + l.lead, l, rest + trail);
  }

  lemma InsideQuiet(l: Library)
    requires LibraryOk(l)
    ensures Quiet(Inside(l), LIB_END) && Quiet(Inside(l) + LIB_END, LIB)
  {
    hide Quiet;
    ProfilesQuiet(l.profiles, LIB);
    ProfilesQuiet(l.profiles, LIB_END);
    QuietConcat(RenderProfiles(l.profiles), l.tail, LIB);
    QuietConcat(RenderProfiles(l.profiles), l.tail, LIB_END);
    EndQuiet(LIB_END, LIB);
    QuietConcat(Inside(l), LIB_END, LIB);
  }

  lemma LibraryClose(pre: string, l: Library, post: string)
    requires Quiet(Inside(l), LIB_END)
    ensures var s, n := pre + Open(LIB, l.attrs) + (Inside(l) + LIB_END + post), |pre| + |LIB| + |l.attrs|;
            && s[n] == '>' && NextClose(s, n, LIB_END) == Some(n + 1 + |Inside(l)|)
            && s[n + 1..n + 1 + |Inside(l)|] == Inside(l)
  {
    hide Quiet, NextClose, Inside;
    CloseHere(pre + LIB + l.attrs, Inside(l), LIB_END, post);
    assert pre + Open(LIB, l.attrs) + (Inside(l) + LIB_END + post)
        == (pre + LIB + l.attrs) + ">" + Inside(l) + LIB_END + post;
  }

  lemma NoProfiles(a: string, tail: string)
    requires Quiet(a, PROF) && Quiet(tail, PROF)
    ensures NextTag(a + RenderProfiles([]) + tail, PROF) == None
  {
    hide Quiet, NextTag;
    assert a + RenderProfiles([]) + tail == a + tail;
    QuietConcat(a, tail, PROF);
    NoTag(a + tail, PROF);
  }

  lemma NoLibraries(a: string, trail: string)
    requires Quiet(a, LIB) && Quiet(trail, LIB)
    ensures NextTag(a + RenderLibraries([]) + trail, LIB) == None
  {
    hide Quiet, NextTag;
    assert a + RenderLibraries([]) + trail == a + trail;
    QuietConcat(a, trail, LIB);
    NoTag(a + trail, LIB);
  }

  // ---------- Within a library ----------

  lemma DocNamesUnfold(ps: seq<Profile>)
    ensures DocNames(ps) ==
            if ps == [] then []
            else var name := NameIn(PROF, ps[0].attrs); (if name == "" then [] else [name]) + DocNames(ps[1..])
  {
    hide NameIn;
  }

  lemma {:induction false} NamesRendered(a: string, ps: seq<Profile>, tail: string)
    requires ProfilesOk(ps) && Quiet(a, PROF) && Quiet(tail, PROF)
    ensures ProfileNames(a + RenderProfiles(ps) + tail) == DocNames(ps)
    decreases ps
  {
    hide Quiet, NextTag, NextClose, NameOf, ProfileOk, ProfileNames, Open, After, RenderProfiles, DocNames;
    DocNamesUnfold(ps);
    var s := a + RenderProfiles(ps) + tail;
    ProfileNamesUnfold(s);
    if ps == [] {
      NoProfiles(a, tail);
    } else {
      ProfileStep(a, ps, tail);
      NamesRendered(">" + After(ps[0]), ps[1..], tail);
    }
  }

  lemma {:induction false} BlockRendered(a: string, ps: seq<Profile>, tail: string, profile: string)
    requires ProfilesOk(ps) && Quiet(a, PROF) && Quiet(tail, PROF)
    ensures ExtractFromBlock(a + RenderProfiles(ps) + tail, profile) == DocBlock(ps, profile)
    decreases ps
  {
    hide Quiet, NextTag, NextClose, Mentions, ProfileOk, ExtractFromBlock, Open, After, Block, RenderProfiles;
    var s := a + RenderProfiles(ps) + tail;
    ExtractFromBlockUnfold(s, profile);
    if ps == [] {
      NoProfiles(a, tail);
    } else {
      ProfileStep(a, ps, tail);
      ProfileClose(a, ps, tail);
      BlockRendered(">" + After(ps[0]), ps[1..], tail, profile);
    }
  }

  function ProfileSpan(ps: seq<Profile>, profile: string, from: nat): Option<Span> {
    match ProfileIndex(ps, profile)
    case None => None
    case Some(k) =>
      var at := from + ProfileStart(ps, k);
      Some(Span(at, at + |Block(ps[k])|))
  }

  lemma ProfileSpanStep(ps: seq<Profile>, profile: string, from: nat, n: nat)
    requires ps != []
    ensures var at := from + |ps[0].lead|;
            ShiftSpan(ProfileSpan(ps, profile, from), n) ==
              if NameIn(PROF, ps[0].attrs) == profile then Some(Span(n + at, n + at + |Block(ps[0])|))
              else ShiftSpan(ProfileSpan(ps[1..], profile, from + |RenderProfile(ps[0])|), n)
  {
    hide NameIn, Block, RenderProfile;
  }

  lemma NoSpan(profile: string, from: nat)
    ensures ProfileSpan([], profile, from) == None
  {
  }

  lemma ProfileSpanMoves(ps: seq<Profile>, profile: string, from: nat, n: nat)
    ensures ShiftSpan(ProfileSpan(ps, profile, from), n) == ProfileSpan(ps, profile, from + n)
  {
    hide ProfileIndex, ProfileStart, Block, NameIn;
  }

  lemma {:induction false} ProfileFound(a: string, ps: seq<Profile>, tail: string, profile: string)
    requires ProfilesOk(ps) && Quiet(a, PROF) && Quiet(tail, PROF)
    ensures FindProfile(a + RenderProfiles(ps) + tail, profile) == ProfileSpan(ps, profile, |a|)
    decreases ps
  {
    hide Quiet, NextTag, NextClose, NameOf, ProfileOk, FindProfile, RenderProfiles, ProfileSpan;
    var s := a + RenderProfiles(ps) + tail;
    FindProfileUnfold(s, profile);
    if ps == [] {
      NoProfiles(a, tail);
      NoSpan(profile, |a|);
    } else {
      ProfileStep(a, ps, tail);
      ProfileClose(a, ps, tail);
      ProfileFound(After(ps[0]), ps[1..], tail, profile);
      ProfileSpanStep(ps, profile, |a|, 0);
      ProfileSpanMoves(ps[1..], profile, |After(ps[0])|, |a| + |ps[0].lead| + |Open(PROF, ps[0].attrs)|);
    }
  }

  // ---------- Over the whole document ----------

  lemma InsideNames(l: Library)
    requires LibraryOk(l)
    ensures ProfileNames(Inside(l)) == DocNames(l.profiles)
  {
    hide Quiet, ProfilesOk, ProfileNames, DocNames, RenderProfiles;
    EmptyQuiet(PROF);
    assert "" + RenderProfiles(l.profiles) + l.tail == Inside(l);
    NamesRendered("", l.profiles, l.tail);
  }

  lemma InsideBlock(l: Library, profile: string)
    requires LibraryOk(l)
    ensures ExtractFromBlock(Inside(l), profile) == DocBlock(l.profiles, profile)
  {
    hide Quiet, ProfilesOk, ExtractFromBlock, DocBlock, RenderProfiles;
    EmptyQuiet(PROF);
    assert "" + RenderProfiles(l.profiles) + l.tail == Inside(l);
    BlockRendered("", l.profiles, l.tail, profile);
  }

  lemma DocListingUnfold(ls: seq<Library>)
    ensures DocListing(ls) ==
            if ls == [] then []
            else
              (if NameIn(LIB, ls[0].attrs) == "" then [] else Pairs(NameIn(LIB, ls[0].attrs), DocNames(ls[0].profiles)))
              + DocListing(ls[1..])
  {
    hide NameIn, DocNames, Pairs;
  }

  // A listing, given where the first library stands.
  lemma ListingAt(s: string, t: Span, c: nat, open: string, inside: string, rest: string)
    requires NextTag(s, LIB) == Some(t) && NextClose(s, t.end, LIB_END) == Some(c)
    requires t.at <= t.end < |s| && t.end + 1 <= c <= |s|
    requires s[t.at..t.end + 1] == open && s[t.end + 1..c] == inside && s[t.end + 1..] == rest
    ensures Listing(s) == (if NameOf(open) == "" then [] else Pairs(NameOf(open), ProfileNames(inside))) + Listing(rest)
  {
    hide NextTag, NextClose, NameOf, Pairs, ProfileNames, Listing;
    ListingUnfold(s);
  }

  lemma ListingStep(a: string, ls: seq<Library>, trail: string)
    requires ls != [] && LibraryOk(ls[0]) && Quiet(a, LIB)
    ensures var l := ls[0];
            Listing(a + RenderLibraries(ls) + trail) ==
            (if NameIn(LIB, l.attrs) == "" then [] else Pairs(NameIn(LIB, l.attrs), DocNames(l.profiles)))
            + Listing((Inside(l) + LIB_END) + RenderLibraries(ls[1..]) + trail)
  {
    hide Quiet, NextTag, NextClose, NameOf, LibraryOk, Listing, ProfileNames, Pairs, RenderLibraries, Inside,
         DocNames, Open;
    var s, l, at := a + RenderLibraries(ls) + trail, ls[0], |a| + |ls[0].lead|;
    var n := at + |LIB| + |l.attrs|;
    LibraryStep(a, ls, trail);
    InsideNames(l);
    ListingAt(s, Span(at, n), n + 1 + |Inside(l)|, Open(LIB, l.attrs), Inside(l),
              (Inside(l) + LIB_END) + RenderLibraries(ls[1..]) + trail);
  }

  lemma {:induction false} ListingRendered(a: string, ls: seq<Library>, trail: string)
    requires LibrariesOk(ls) && Quiet(a, LIB) && Quiet(trail, LIB)
    ensures Listing(a + RenderLibraries(ls) + trail) == DocListing(ls)
    decreases ls
  {
    hide Quiet, NextTag, LibraryOk, Listing, Pairs, RenderLibraries, Inside, DocNames, DocListing, NameIn;
    DocListingUnfold(ls);
    if ls == [] {
      NoLibraries(a, trail);
      ListingNone(a + RenderLibraries([]) + trail);
    } else {
      ListingStep(a, ls, trail);
      assert Quiet(Inside(ls[0]) + LIB_END, LIB) by { InsideQuiet(ls[0]); }
      ListingRendered(Inside(ls[0]) + LIB_END, ls[1..], trail);
    }
  }

  lemma ListingNone(s: string)
    requires NextTag(s, LIB) == None
    ensures Listing(s) == []
  {
    hide NextTag, Listing;
    ListingUnfold(s);
  }

  lemma EmptyQuiet(pat: string)
    requires IsMarker(pat)
    ensures Quiet("", pat)
  {
    MarkerShape(pat);
  }

  lemma {:induction false} ExtractRendered(a: string, ls: seq<Library>, trail: string, lib: string, profile: string)
    requires LibrariesOk(ls) && Quiet(a, LIB) && Quiet(trail, LIB)
    ensures Extract(a + RenderLibraries(ls) + trail, lib, profile) == DocExtract(ls, lib, profile)
    decreases ls
  {
    hide Quiet, NextTag, NextClose, Mentions, ProfilesOk, Extract, ExtractFromBlock, DocBlock, RenderLibraries, Inside;
    var s := a + RenderLibraries(ls) + trail;
    ExtractUnfold(s, lib, profile);
    if ls == [] {
      NoLibraries(a, trail);
    } else {
      LibraryStep(a, ls, trail);
      InsideBlock(ls[0], profile);
      ExtractRendered(Inside(ls[0]) + LIB_END, ls[1..], trail, lib, profile);
    }
  }

  function LibrarySpan(ls: seq<Library>, lib: string, from: nat): Option<Span> {
    match LibraryIndex(ls, lib)
    case None => None
    case Some(k) =>
      var at := from + LibraryStart(ls, k);
      Some(Span(at, at + |Inside(ls[k])|))
  }

  lemma LibrarySpanStep(ls: seq<Library>, lib: string, from: nat, n: nat)
    ensures ls == [] ==> LibrarySpan(ls, lib, from) == None
    ensures ls != [] ==>
              var at := from + |ls[0].lead| + |Open(LIB, ls[0].attrs)|;
              ShiftSpan(LibrarySpan(ls, lib, from), n) ==
                if NameIn(LIB, ls[0].attrs) == lib then Some(Span(n + at, n + at + |Inside(ls[0])|))
                else ShiftSpan(LibrarySpan(ls[1..], lib, from + |RenderLibrary(ls[0])|), n)
  {
    hide NameIn, Inside, RenderLibrary, Open;
  }

  lemma LibrarySpanMoves(ls: seq<Library>, lib: string, from: nat, n: nat)
    ensures ShiftSpan(LibrarySpan(ls, lib, from), n) == LibrarySpan(ls, lib, from + n)
  {
    hide LibraryIndex, LibraryStart, Inside, RenderLibrary, RenderLibraries, NameIn;
    match LibraryIndex(ls, lib)
    case None =>
    case Some(k) => assert from + n + LibraryStart(ls, k) == from + LibraryStart(ls, k) + n;
  }

  lemma {:induction false} LibraryFound(a: string, ls: seq<Library>, trail: string, lib: string)
    requires LibrariesOk(ls) && Quiet(a, LIB) && Quiet(trail, LIB) && lib != ""
    ensures FindLibrary(a + RenderLibraries(ls) + trail, lib) == LibrarySpan(ls, lib, |a|)
    decreases ls
  {
    hide Quiet, NextTag, NextClose, NameOf, ProfilesOk, FindLibrary, RenderLibraries, LibrarySpan, Inside;
    var s := a + RenderLibraries(ls) + trail;
    LibrarySpanStep(ls, lib, |a|, 0);
    FindLibraryUnfold(s, lib);
    if ls == [] {
      NoLibraries(a, trail);
    } else {
      LibraryStep(a, ls, trail);
      var after := Inside(ls[0]) + LIB_END;
      LibraryFound(after, ls[1..], trail, lib);
      LibrarySpanMoves(ls[1..], lib, |after|, |a| + |ls[0].lead| + |Open(LIB, ls[0].attrs)|);
    }
  }
}
