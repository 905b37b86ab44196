// What a merge means for later readings of the text.
module QosLaws {
  import opened Wrappers
  import opened Text
  import opened QosXml
  import opened QosDoc
  import opened QosReading
  import opened QosNaming
  import opened QosMerge

  // ---------- Well-formedness is kept ----------

  lemma BlankPlain(s: string)
    requires '<' !in s
    ensures Plain(s)
  {
    forall pat | IsMarker(pat) ensures Quiet(s, pat) {
      MarkerShape(pat);
      forall i ensures !MatchAt(s, pat, i) { if i >= 0 { Mismatch(s, pat, i, 0); } }
    }
  }

  lemma PlainConcat(a: string, b: string)
    requires Plain(a) && Plain(b)
    ensures Plain(a + b)
  {
    hide Quiet;
    QuietConcat(a, b, LIB);
    QuietConcat(a, b, LIB_END);
    QuietConcat(a, b, PROF);
    QuietConcat(a, b, PROF_END);
  }

  lemma PlacedOk(before: string, y: Profile, after: string)
    requires Plain(before) && ProfileOk(y) && Plain(after)
    ensures ProfileOk(Placed(before, y, after))
  {
    hide Plain;
    BlankPlain("  ");
    BlankPlain("\n");
    PlainConcat(before, "  ");
    PlainConcat(before + "  ", y.lead);
    PlainConcat(y.trail, "\n");
    PlainConcat(y.trail + "\n", after);
  }

  lemma MergeIntoOk(l: Library, name: string, x: Profile)
    requires LibraryOk(l) && ProfileOk(x) && NewProfileOk(x) && NameFree(name)
    ensures LibraryOk(MergeInto(l, name, x))
  {
    RenameOk(x.attrs, name);
    hide Plain, AttrsOk, Nameable, NameFree, NewAttrs, RenameOpening, Placed, ProfileIndex, NameOf, Mentions;
    BlankPlain("");
    var y, ps := Named(x, name), l.profiles;
    match ProfileIndex(ps, name)
    case Some(j) => PlacedOk(ps[j].lead, y, ps[j].trail);
    case None => PlacedOk(l.tail, y, "");
  }

  lemma DocMergeOk(ls: seq<Library>, trail: string, lib: string, name: string, x: Profile)
    requires DocOk(ls, trail) && ProfileOk(x) && NewProfileOk(x) && NameFree(name)
    requires DocMerge(ls, lib, name, x).Some?
    ensures DocOk(DocMerge(ls, lib, name, x).value, trail)
  {
    hide Plain, LibraryOk, ProfileOk, NewProfileOk, NameFree, LibraryIndex, MergeInto, NameIn;
    MergeIntoOk(ls[LibraryIndex(ls, lib).value], name, x);
  }

  // ---------- Reading back ----------

  // The scanner that extracts tests a tag by substring; the one that merges reads its name. They
  // agree on a name unless another attribute, such as base_name, carries it as its value.
  predicate TagClear(opening: string, name: string) {
    Mentions(opening, name) <==> NameOf(opening) == name
  }

  predicate ProfilesClear(ps: seq<Profile>, name: string) {
    forall i :: 0 <= i < |ps| ==> TagClear(Open(PROF, ps[i].attrs), name)
  }

  predicate DocClear(ls: seq<Library>, lib: string, name: string) {
    forall i :: 0 <= i < |ls| ==> TagClear(Open(LIB, ls[i].attrs), lib) && ProfilesClear(ls[i].profiles, name)
  }

  lemma PlacedBlock(before: string, y: Profile, after: string)
    ensures Block(Placed(before, y, after)) == Block(y) && Placed(before, y, after).attrs == y.attrs
  {
  }

  // The place a merge writes to: the first profile of that name, or the end.
  function Slot(ps: seq<Profile>, name: string): nat {
    match ProfileIndex(ps, name) case Some(j) => j case None => |ps|
  }

  // A profile before that place carries the name in another attribute.
  predicate Shadowed(ps: seq<Profile>, name: string) {
    exists i :: 0 <= i < Slot(ps, name) && i < |ps| && Mentions(Open(PROF, ps[i].attrs), name)
  }

  predicate LibrariesClear(ls: seq<Library>, lib: string) {
    forall i :: 0 <= i < |ls| ==> TagClear(Open(LIB, ls[i].attrs), lib)
  }

  // Extraction stops at the first tag that mentions the name.
  lemma {:induction false} FirstMention(ps: seq<Profile>, name: string, j: nat)
    requires j < |ps| && Mentions(Open(PROF, ps[j].attrs), name)
    requires forall i :: 0 <= i < j ==> !Mentions(Open(PROF, ps[i].attrs), name)
    ensures DocBlock(ps, name) == Some(Block(ps[j]))
    decreases ps
  {
    hide Mentions, Open, Block;
    if j > 0 { FirstMention(ps[1..], name, j - 1); }
  }

  lemma {:induction false} EarlierMention(ps: seq<Profile>, name: string, j: nat)
    requires j < |ps| && Mentions(Open(PROF, ps[j].attrs), name)
    ensures exists i :: 0 <= i <= j && DocBlock(ps, name) == Some(Block(ps[i]))
    decreases ps
  {
    hide Mentions, Open, Block;
    if !Mentions(Open(PROF, ps[0].attrs), name) {
      EarlierMention(ps[1..], name, j - 1);
      var i :| 0 <= i <= j - 1 && DocBlock(ps[1..], name) == Some(Block(ps[1..][i]));
      assert ps[i + 1] == ps[1..][i];
    } else {
      assert DocBlock(ps, name) == Some(Block(ps[0]));
    }
  }

  // A block's text fixes its opening tag.
  lemma BlockTag(p: Profile, q: Profile)
    requires AttrsOk(p.attrs) && AttrsOk(q.attrs) && Block(p) == Block(q)
    ensures p.attrs == q.attrs
  {
    hide Find, AttrsOk;
    NoGt(PROF, p.attrs);
    NoGt(PROF, q.attrs);
    FindChar(PROF + p.attrs, '>', p.body + PROF_END);
    FindChar(PROF + q.attrs, '>', q.body + PROF_END);
    assert Block(p) == PROF + p.attrs + [">"[0]] + (p.body + PROF_END);
    assert Block(q) == PROF + q.attrs + [">"[0]] + (q.body + PROF_END);
    assert |p.attrs| == |q.attrs|;
    var n := |PROF|;
    assert p.attrs == Block(p)[n..n + |p.attrs|] && q.attrs == Block(q)[n..n + |q.attrs|];
  }

  lemma {:induction false} SlotFirst(ps: seq<Profile>, name: string)
    ensures Slot(ps, name) <= |ps|
    ensures forall i :: 0 <= i < Slot(ps, name) ==> NameIn(PROF, ps[i].attrs) != name
  {
    hide NameIn;
    if ps != [] {
      SlotFirst(ps[1..], name);
      forall i | 0 < i < |ps| ensures ps[i] == ps[1..][i - 1] {}
    }
  }

  // What a library holds after a merge: the new profile at its slot, the others where they were.
  lemma MergedProfiles(l: Library, name: string, x: Profile)
    ensures var j, m := Slot(l.profiles, name), MergeInto(l, name, x).profiles;
            && j <= |l.profiles| && j < |m|
            && m[j].attrs == Named(x, name).attrs && Block(m[j]) == Block(Named(x, name))
            && forall i :: 0 <= i < j ==> m[i] == l.profiles[i]
  {
    SlotFirst(l.profiles, name);
    hide NewAttrs, Placed, ProfileIndex, NameIn, Block;
    var y, ps := Named(x, name), l.profiles;
    match ProfileIndex(ps, name)
    case Some(j) => PlacedBlock(ps[j].lead, y, ps[j].trail);
    case None => PlacedBlock(l.tail, y, "");
  }

  lemma LibraryGetPut(l: Library, name: string, x: Profile)
    requires (forall i :: 0 <= i < |l.profiles| ==> AttrsOk(l.profiles[i].attrs)) && NewProfileOk(x) && NameFree(name)
    ensures DocBlock(MergeInto(l, name, x).profiles, name).Some?
    ensures DocBlock(MergeInto(l, name, x).profiles, name) == Some(Block(Named(x, name))) <==>
            !Shadowed(l.profiles, name)
  {
    RenameOk(x.attrs, name);
    MergedProfiles(l, name, x);
    SlotFirst(l.profiles, name);
    hide AttrsOk, Nameable, NameFree, NewAttrs, RenameOpening, MergeInto, Slot, NameOf, Mentions, Open, DocBlock, Block;
    var j, m, y := Slot(l.profiles, name), MergeInto(l, name, x).profiles, Named(x, name);
    if Shadowed(l.profiles, name) {
      var i :| 0 <= i < j && i < |l.profiles| && Mentions(Open(PROF, l.profiles[i].attrs), name);
      EarlierMention(m, name, i);
      var h :| 0 <= h <= i && DocBlock(m, name) == Some(Block(m[h]));
      if Block(m[h]) == Block(y) { BlockTag(m[h], y); }
    } else {
      FirstMention(m, name, j);
    }
  }

  // Some library that mentions the one name holds a profile that mentions the other.
  predicate Answered(ls: seq<Library>, lib: string, name: string) {
    exists i :: 0 <= i < |ls| && Mentions(Open(LIB, ls[i].attrs), lib) && DocBlock(ls[i].profiles, name).Some?
  }

  lemma {:induction false} BlockSplit(ps: seq<Profile>, qs: seq<Profile>, name: string)
    ensures DocBlock(ps + qs, name) == if DocBlock(ps, name).Some? then DocBlock(ps, name) else DocBlock(qs, name)
    decreases ps
  {
    hide Mentions, Open, Block;
    if ps == [] {
      assert ps + qs == qs;
    } else {
      assert (ps + qs)[1..] == ps[1..] + qs;
      BlockSplit(ps[1..], qs, name);
    }
  }

  lemma {:induction false} ExtractSplit(ls: seq<Library>, k: nat, lib: string, name: string)
    requires k < |ls|
    ensures DocExtract(ls, lib, name) ==
            if Answered(ls[..k], lib, name) then DocExtract(ls[..k], lib, name)
            else if Mentions(Open(LIB, ls[k].attrs), lib) && DocBlock(ls[k].profiles, name).Some? then
              DocBlock(ls[k].profiles, name).value
            else DocExtract(ls[k + 1..], lib, name)
    decreases k
  {
    hide Mentions, Open, DocBlock;
    if k > 0 {
      ExtractSplit(ls[1..], k - 1, lib, name);
      assert ls[..k][1..] == ls[1..][..k - 1] && ls[1..][k..] == ls[k + 1..];
      AnsweredUnfold(ls[..k], lib, name);
    }
  }

  lemma AnsweredUnfold(ls: seq<Library>, lib: string, name: string)
    requires ls != []
    ensures Answered(ls, lib, name) <==>
            (Mentions(Open(LIB, ls[0].attrs), lib) && DocBlock(ls[0].profiles, name).Some?)
            || Answered(ls[1..], lib, name)
  {
    hide Mentions, Open, DocBlock;
    if Answered(ls[1..], lib, name) {
      var i :| 0 <= i < |ls| - 1 && Mentions(Open(LIB, ls[1..][i].attrs), lib)
               && DocBlock(ls[1..][i].profiles, name).Some?;
      assert ls[i + 1] == ls[1..][i];
    }
    if i :| 0 < i < |ls| && Mentions(Open(LIB, ls[i].attrs), lib) && DocBlock(ls[i].profiles, name).Some? {
      assert ls[1..][i - 1] == ls[i];
    }
  }

  // The profile merged under name into library k is what extracting it by its names gives: an earlier
  // library answers with the same text; or none answers, and no profile before the merged one carries
  // its name in another attribute; or the library goes unnoticed and a later one answers the same.
  predicate ReadsBack(ls: seq<Library>, k: nat, lib: string, name: string, y: Profile)
    requires k < |ls|
  {
    if Answered(ls[..k], lib, name) then DocExtract(ls[..k], lib, name) == Block(y)
    else if Mentions(Open(LIB, ls[k].attrs), lib) then !Shadowed(ls[k].profiles, name)
    else DocExtract(ls[k + 1..], lib, name) == Block(y)
  }

  lemma DocGetPut(ls: seq<Library>, lib: string, name: string, x: Profile)
    requires LibrariesOk(ls) && NewProfileOk(x) && NameFree(name) && DocMerge(ls, lib, name, x).Some?
    ensures DocExtract(DocMerge(ls, lib, name, x).value, lib, name) == Block(Named(x, name)) <==>
            ReadsBack(ls, LibraryIndex(ls, lib).value, lib, name, Named(x, name))
  {
    hide Plain, AttrsOk, Mentions, Open, Block, MergeInto, DocBlock, DocExtract, NewProfileOk, NameFree, Named,
         Shadowed, LibraryIndex, Answered;
    var k := LibraryIndex(ls, lib).value;
    var m := MergeInto(ls[k], name, x);
    var after := ls[k := m];
    SameTag(ls[k], name, x);
    LibraryGetPut(ls[k], name, x);
    assert after[..k] == ls[..k] && after[k + 1..] == ls[k + 1..];
    ExtractSplit(after, k, lib, name);
  }

  // Where the scanners agree on the library's name, its own library answers first.
  lemma ClearReadsBack(ls: seq<Library>, lib: string, name: string, y: Profile)
    requires LibrariesClear(ls, lib) && LibraryIndex(ls, lib).Some?
    ensures var k := LibraryIndex(ls, lib).value; ReadsBack(ls, k, lib, name, y) <==> !Shadowed(ls[k].profiles, name)
  {
    hide NameOf, Mentions, Open, DocBlock, DocExtract, Block, Shadowed;
    IndexFirst(ls, lib);
  }

  // The answer that stands behind a place in a library: in the profiles after it, or in a later library.
  function AnswerBehind(ls: seq<Library>, k: nat, j: nat, lib: string, name: string): string
    requires k < |ls| && j <= |ls[k].profiles|
  {
    var ps := ls[k].profiles;
    var later := DocBlock(if j < |ps| then ps[j + 1..] else [], name);
    if later.Some? then later.value else DocExtract(ls[k + 1..], lib, name)
  }

  // Putting y in the slot for name in library k does not change what lib' and name' are answered:
  // the library is not lib', or an earlier profile answers, or the slot answers the same as before.
  predicate SlotKept(ls: seq<Library>, k: nat, name: string, y: Profile, lib': string, name': string)
    requires k < |ls|
  {
    SlotFirst(ls[k].profiles, name);
    var ps, j := ls[k].profiles, Slot(ls[k].profiles, name);
    var behind := AnswerBehind(ls, k, j, lib', name');
    || !Mentions(Open(LIB, ls[k].attrs), lib')
    || Answered(ls[..k], lib', name')
    || DocBlock(ps[..j], name').Some?
    || (if j < |ps| && Mentions(Open(PROF, ps[j].attrs), name') then Block(ps[j]) else behind) ==
       (if Mentions(Open(PROF, y.attrs), name') then Block(y) else behind)
  }

  // The profiles of a library around its slot.
  lemma AroundSlot(l: Library, name: string, x: Profile)
    ensures var ps, j, m := l.profiles, Slot(l.profiles, name), MergeInto(l, name, x).profiles;
            && j <= |ps| && j < |m| && m[..j] == ps[..j]
            && m[j].attrs == Named(x, name).attrs && Block(m[j]) == Block(Named(x, name))
            && m[j + 1..] == (if j < |ps| then ps[j + 1..] else [])
  {
    SlotFirst(l.profiles, name);
    hide NewAttrs, Placed, ProfileIndex, NameIn, Block;
    var y, ps := Named(x, name), l.profiles;
    match ProfileIndex(ps, name)
    case Some(j) => PlacedBlock(ps[j].lead, y, ps[j].trail);
    case None => PlacedBlock(l.tail, y, "");
  }

  lemma BlockOne(p: Profile, rest: seq<Profile>, name: string)
    ensures DocBlock([p] + rest, name) ==
            if Mentions(Open(PROF, p.attrs), name) then Some(Block(p)) else DocBlock(rest, name)
  {
    hide Mentions, Open, Block;
    assert ([p] + rest)[1..] == rest;
  }

  // A library's answer, cut at a place.
  lemma BlockAt(ps: seq<Profile>, j: nat, name: string)
    requires j < |ps|
    ensures DocBlock(ps, name) ==
            if DocBlock(ps[..j], name).Some? then DocBlock(ps[..j], name)
            else if Mentions(Open(PROF, ps[j].attrs), name) then Some(Block(ps[j]))
            else DocBlock(ps[j + 1..], name)
  {
    hide Mentions, Open, Block, DocBlock;
    assert ps == ps[..j] + ([ps[j]] + ps[j + 1..]);
    BlockSplit(ps[..j], [ps[j]] + ps[j + 1..], name);
    BlockOne(ps[j], ps[j + 1..], name);
  }

  lemma DocFrameExactly(ls: seq<Library>, lib: string, name: string, x: Profile, lib': string, name': string)
    requires DocMerge(ls, lib, name, x).Some?
    ensures DocExtract(DocMerge(ls, lib, name, x).value, lib', name') == DocExtract(ls, lib', name') <==>
            SlotKept(ls, LibraryIndex(ls, lib).value, name, Named(x, name), lib', name')
  {
    hide Mentions, Open, Block, MergeInto, DocBlock, DocExtract, Named, Slot, LibraryIndex, Answered;
    var k := LibraryIndex(ls, lib).value;
    var l, m := ls[k], MergeInto(ls[k], name, x);
    var after := ls[k := m];
    SameTag(l, name, x);
    SlotFirst(l.profiles, name);
    AroundSlot(l, name, x);
    var j := Slot(l.profiles, name);
    assert after[..k] == ls[..k] && after[k + 1..] == ls[k + 1..];
    ExtractSplit(ls, k, lib', name');
    ExtractSplit(after, k, lib', name');
    BlockAt(m.profiles, j, name');
    if j < |l.profiles| {
      BlockAt(l.profiles, j, name');
    } else {
      assert l.profiles[..j] == l.profiles;
      NoBlock(name');
    }
  }

  // Where the scanners agree on the names, the slot for another one answers neither before nor after.
  lemma ClearKept(ls: seq<Library>, lib: string, name: string, x: Profile, lib': string, name': string)
    requires (lib', name') != (lib, name) && LibraryIndex(ls, lib).Some? && NewProfileOk(x) && NameFree(name)
    requires DocClear(ls, lib', name') && TagClear(Open(PROF, Named(x, name).attrs), name')
    ensures SlotKept(ls, LibraryIndex(ls, lib).value, name, Named(x, name), lib', name')
  {
    RenameOk(x.attrs, name);
    hide AttrsOk, Nameable, NameFree, NewAttrs, RenameOpening, NameOf, Mentions, Open, DocBlock, DocExtract, Block,
         Answered;
    SlotFirst(ls[LibraryIndex(ls, lib).value].profiles, name);
  }

  lemma NoBlock(name: string)
    ensures DocBlock([], name) == None
  {
  }

  // ---------- Listing ----------

  lemma {:induction false} NamesIndex(ps: seq<Profile>, name: string)
    requires name != ""
    ensures name in DocNames(ps) <==> ProfileIndex(ps, name).Some?
  {
    hide NameIn;
    DocNamesUnfold(ps);
    if ps != [] { NamesIndex(ps[1..], name); }
  }

  lemma {:induction false} NamesReplaced(ps: seq<Profile>, j: nat, q: Profile)
    requires j < |ps| && NameIn(PROF, q.attrs) == NameIn(PROF, ps[j].attrs)
    ensures DocNames(ps[j := q]) == DocNames(ps)
  {
    hide NameIn;
    DocNamesUnfold(ps);
    DocNamesUnfold(ps[j := q]);
    if j > 0 {
      assert ps[j := q][1..] == ps[1..][j - 1 := q];
      NamesReplaced(ps[1..], j - 1, q);
    } else {
      assert ps[j := q][1..] == ps[1..];
    }
  }

  lemma {:induction false} NamesAppended(ps: seq<Profile>, q: Profile)
    requires NameIn(PROF, q.attrs) != ""
    ensures DocNames(ps + [q]) == DocNames(ps) + [NameIn(PROF, q.attrs)]
  {
    hide NameIn;
    DocNamesUnfold(ps);
    DocNamesUnfold(ps + [q]);
    if ps == [] {
      assert (ps + [q])[1..] == [];
    } else {
      assert (ps + [q])[1..] == ps[1..] + [q];
      NamesAppended(ps[1..], q);
    }
  }

  function WithName(names: seq<string>, name: string): seq<string> {
    if name in names then names else names + [name]
  }

  lemma NamesMerged(l: Library, name: string, x: Profile)
    requires NewProfileOk(x) && NameFree(name)
    ensures DocNames(MergeInto(l, name, x).profiles) == WithName(DocNames(l.profiles), name)
  {
    RenameOk(x.attrs, name);
    NamesIndex(l.profiles, name);
    hide AttrsOk, Nameable, NewAttrs, RenameOpening, Placed, ProfileIndex, NameIn, Mentions, Open, DocNames, NameFree;
    var y, ps := Named(x, name), l.profiles;
    match ProfileIndex(ps, name)
    case Some(j) =>
      PlacedBlock(ps[j].lead, y, ps[j].trail);
      NamesReplaced(ps, j, Placed(ps[j].lead, y, ps[j].trail));
    case None =>
      PlacedBlock(l.tail, y, "");
      assert NameIn(PROF, y.attrs) != "" by { NameFreeNonempty(name); }
      NamesAppended(ps, Placed(l.tail, y, ""));
  }

  lemma NameFreeNonempty(name: string)
    requires NameFree(name)
    ensures name != ""
  {
  }

  lemma {:induction false} ListingSplit(ls: seq<Library>, k: nat, l: Library)
    requires k < |ls| && l.attrs == ls[k].attrs && NameIn(LIB, l.attrs) != ""
    ensures DocListing(ls[k := l]) ==
            DocListing(ls[..k]) + Pairs(NameIn(LIB, l.attrs), DocNames(l.profiles)) + DocListing(ls[k + 1..])
    decreases k
  {
    hide NameIn, DocNames, Pairs, DocListing;
    var group := Pairs(NameIn(LIB, l.attrs), DocNames(l.profiles));
    DocListingUnfold(ls[k := l]);
    DocListingUnfold(ls[..k]);
    if k == 0 {
      assert ls[k := l][1..] == ls[1..];
      assert [] + group + DocListing(ls[1..]) == group + DocListing(ls[1..]);
    } else {
      ListingSplit(ls[1..], k - 1, l);
      assert ls[k := l][1..] == ls[1..][k - 1 := l];
      assert ls[..k][1..] == ls[1..][..k - 1];
      assert ls[1..][k..] == ls[k + 1..];
      var first := if NameIn(LIB, ls[0].attrs) == "" then []
                   else Pairs(NameIn(LIB, ls[0].attrs), DocNames(ls[0].profiles));
      assert first + (DocListing(ls[1..][..k - 1]) + group + DocListing(ls[k + 1..]))
          == first + DocListing(ls[1..][..k - 1]) + group + DocListing(ls[k + 1..]);
    }
  }

  // ---------- The laws, on text ----------

  lemma ExtractDoc(ls: seq<Library>, trail: string, lib: string, name: string)
    requires DocOk(ls, trail)
    ensures Extract(Render(ls, trail), lib, name) == DocExtract(ls, lib, name)
  {
    hide Quiet, Extract, LibraryOk, RenderLibraries, DocExtract;
    EmptyQuiet(LIB);
    assert "" + RenderLibraries(ls) + trail == Render(ls, trail);
    ExtractRendered("", ls, trail, lib, name);
  }

  lemma ListingDoc(ls: seq<Library>, trail: string)
    requires DocOk(ls, trail)
    ensures Listing(Render(ls, trail)) == DocListing(ls)
  {
    hide Quiet, Listing, LibraryOk, RenderLibraries, DocListing;
    EmptyQuiet(LIB);
    assert "" + RenderLibraries(ls) + trail == Render(ls, trail);
    ListingRendered("", ls, trail);
  }

  // A merge that succeeds leaves the text of a well-formed document with that one edit.
  lemma MergedText(ls: seq<Library>, trail: string, lib: string, name: string, x: Profile)
    requires DocOk(ls, trail) && lib != "" && ProfileOk(x) && NewProfileOk(x) && NameFree(name)
    requires Merge(Render(ls, trail), lib, name, RenderProfile(x)) != ""
    ensures var m := DocMerge(ls, lib, name, x);
            m.Some? && DocOk(m.value, trail) &&
            Merge(Render(ls, trail), lib, name, RenderProfile(x)) == Render(m.value, trail)
  {
    hide DocOk, ProfileOk, NewProfileOk, NameFree, DocMerge, Merge, Render;
    MergeRendered(ls, trail, lib, name, x);
    DocMergeOk(ls, trail, lib, name, x);
  }

  // When the merged profile reads back.
  lemma MergeGetPut(ls: seq<Library>, trail: string, lib: string, name: string, x: Profile)
    requires DocOk(ls, trail) && lib != "" && ProfileOk(x) && NewProfileOk(x) && NameFree(name)
    requires Merge(Render(ls, trail), lib, name, RenderProfile(x)) != ""
    ensures LibraryIndex(ls, lib).Some?
    ensures Extract(Merge(Render(ls, trail), lib, name, RenderProfile(x)), lib, name) == Block(Named(x, name)) <==>
            ReadsBack(ls, LibraryIndex(ls, lib).value, lib, name, Named(x, name))
  {
    hide DocOk, ProfileOk, NewProfileOk, NameFree, Merge, Render, Extract, DocExtract, Block, RenderProfile, ReadsBack,
         LibraryIndex, MergeInto;
    MergedText(ls, trail, lib, name, x);
    ExtractDoc(DocMerge(ls, lib, name, x).value, trail, lib, name);
    assert LibrariesOk(ls) by { DocLibraries(ls, trail); }
    DocGetPut(ls, lib, name, x);
  }

  lemma DocLibraries(ls: seq<Library>, trail: string)
    requires DocOk(ls, trail)
    ensures LibrariesOk(ls)
  {
  }

  // What a merge leaves as it was: extracting any library and profile gives what it gave before exactly
  // when the slot written to does not come first for them, or gives the same text as before.
  lemma MergeFrameExactly(ls: seq<Library>, trail: string, lib: string, name: string, x: Profile,
                          lib': string, name': string)
    requires DocOk(ls, trail) && lib != "" && ProfileOk(x) && NewProfileOk(x) && NameFree(name)
    requires Merge(Render(ls, trail), lib, name, RenderProfile(x)) != ""
    ensures LibraryIndex(ls, lib).Some?
    ensures Extract(Merge(Render(ls, trail), lib, name, RenderProfile(x)), lib', name') ==
            Extract(Render(ls, trail), lib', name') <==>
            SlotKept(ls, LibraryIndex(ls, lib).value, name, Named(x, name), lib', name')
  {
    hide DocOk, ProfileOk, NewProfileOk, NameFree, Merge, Render, Extract, DocExtract, RenderProfile, Named, SlotKept,
         LibraryIndex, MergeInto;
    MergedText(ls, trail, lib, name, x);
    ExtractDoc(DocMerge(ls, lib, name, x).value, trail, lib', name');
    ExtractDoc(ls, trail, lib', name');
    DocFrameExactly(ls, lib, name, x, lib', name');
  }

  // So where the two scanners agree on the names, every other profile is left as it was.
  lemma MergeFrame(ls: seq<Library>, trail: string, lib: string, name: string, x: Profile,
                                      lib': string, name': string)
    requires DocOk(ls, trail) && lib != "" && ProfileOk(x) && NewProfileOk(x) && NameFree(name)
    requires (lib', name') != (lib, name)
    requires DocClear(ls, lib', name') && TagClear(Open(PROF, Named(x, name).attrs), name')
    requires Merge(Render(ls, trail), lib, name, RenderProfile(x)) != ""
    ensures Extract(Merge(Render(ls, trail), lib, name, RenderProfile(x)), lib', name') ==
            Extract(Render(ls, trail), lib', name')
  {
    hide DocOk, ProfileOk, NewProfileOk, NameFree, Merge, Render, DocClear, TagClear, Extract, RenderProfile, Named,
         Open,
         SlotKept, LibraryIndex;
    MergeFrameExactly(ls, trail, lib, name, x, lib', name');
    ClearKept(ls, lib, name, x, lib', name');
  }

  // The merge succeeds exactly when some library has that name.
  lemma MergeSucceeds(ls: seq<Library>, trail: string, lib: string, name: string, x: Profile)
    requires DocOk(ls, trail) && lib != "" && ProfileOk(x) && NewProfileOk(x) && NameFree(name)
    ensures Merge(Render(ls, trail), lib, name, RenderProfile(x)) != "" <==>
            exists i :: 0 <= i < |ls| && NameIn(LIB, ls[i].attrs) == lib
  {
    hide DocOk, ProfileOk, NewProfileOk, NameFree, Merge, NameIn, RenderProfile, MergeInto;
    MergeRendered(ls, trail, lib, name, x);
    IndexFirst(ls, lib);
    if LibraryIndex(ls, lib).Some? { RenderNonempty(DocMerge(ls, lib, name, x).value, trail); }
  }

  lemma {:induction false} IndexFirst(ls: seq<Library>, lib: string)
    ensures match LibraryIndex(ls, lib)
            case None => forall i :: 0 <= i < |ls| ==> NameIn(LIB, ls[i].attrs) != lib
            case Some(k) => forall i :: 0 <= i < k ==> NameIn(LIB, ls[i].attrs) != lib
  {
    hide NameIn;
    if ls != [] {
      IndexFirst(ls[1..], lib);
      forall i | 0 < i < |ls| ensures ls[i] == ls[1..][i - 1] {}
    }
  }

  lemma RenderNonempty(ls: seq<Library>, trail: string)
    requires ls != []
    ensures Render(ls, trail) != ""
  {
    hide Inside;
  }

  // The listing changes only in the group of the edited library, and there by at most one name at its end.
  lemma ListingAfterMerge(ls: seq<Library>, trail: string, lib: string, name: string, x: Profile)
    requires DocOk(ls, trail) && lib != "" && ProfileOk(x) && NewProfileOk(x) && NameFree(name)
    requires Merge(Render(ls, trail), lib, name, RenderProfile(x)) != ""
    ensures LibraryIndex(ls, lib).Some?
    ensures var k := LibraryIndex(ls, lib).value;
            var before, names, after := DocListing(ls[..k]), DocNames(ls[k].profiles), DocListing(ls[k + 1..]);
            && Listing(Render(ls, trail)) == before + Pairs(lib, names) + after
            && Listing(Merge(Render(ls, trail), lib, name, RenderProfile(x))) ==
               before + Pairs(lib, if name in names then names else names + [name]) + after
  {
    hide DocOk, ProfileOk, NewProfileOk, NameFree, Merge, Render, RenderProfile, Listing, DocListing, DocNames, Pairs,
         NameIn, MergeInto;
    MergedText(ls, trail, lib, name, x);
    var k := LibraryIndex(ls, lib).value;
    var l := MergeInto(ls[k], name, x);
    ListingDoc(ls, trail);
    ListingDoc(ls[k := l], trail);
    SameTag(ls[k], name, x);
    NamesMerged(ls[k], name, x);
    ListingSplit(ls, k, ls[k]);
    ListingSplit(ls, k, l);
    assert ls[k := ls[k]] == ls;
  }
}
