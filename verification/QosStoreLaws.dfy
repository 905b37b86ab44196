// Dynamic profiles always win: what a lookup returns after any run of lookups, updates and reloads.
module QosStoreLaws {
  import opened Wrappers
  import opened Text
  import opened QosXml
  import opened QosDoc
  import opened QosReading
  import opened QosNaming
  import opened QosMerge
  import opened QosLaws
  import opened QosTags
  import opened QosChain
  import opened QosStore

  // ---------- Names ----------

  // A library name that a full name can be split back into.
  predicate PlainLib(lib: string) {
    && (forall i :: 0 <= i < |lib| - 1 ==> !(lib[i] == ':' && lib[i + 1] == ':'))
    && (lib != "" ==> lib[|lib| - 1] != ':')
  }

  lemma SepAt(s: string, i: int)
    ensures MatchAt(s, SEP, i) <==> 0 <= i && i + 2 <= |s| && s[i] == ':' && s[i + 1] == ':'
  {
    if 0 <= i && i + 2 <= |s| { assert s[i..i + 2] == [s[i], s[i + 1]]; }
  }

  // The name returned for (lib, profile) splits back into them exactly when lib has no separator
  // and no trailing colon.
  lemma SplitKey(lib: string, profile: string)
    ensures Split(Key(lib, profile)) == (lib, profile) <==> PlainLib(lib)
  {
    hide MatchAt;
    var s := Key(lib, profile);
    FindSpec(s, SEP);
    hide Find;
    forall i ensures MatchAt(s, SEP, i) <==> 0 <= i && i + 2 <= |s| && s[i] == ':' && s[i + 1] == ':' { SepAt(s, i); }
    assert s[|lib|] == SEP[0] && s[|lib| + 1] == SEP[1];
    assert MatchAt(s, SEP, |lib|);
    var p := Find(s, SEP).value;
    assert s[..|lib|] == lib && s[|lib| + 2..] == profile;
    if p < |lib| {
      assert |s[..p]| < |lib|;
      assert s[p] == lib[p];
      if p + 1 < |lib| { assert s[p + 1] == lib[p + 1]; }
    } else {
      forall i | 0 <= i < |lib| ensures !(lib[i] == ':' && s[i + 1] == ':') {
        assert !MatchAt(s, SEP, i) && s[i] == lib[i];
      }
      assert forall j :: 0 <= j < |lib| ==> s[j] == lib[j];
    }
  }

  // Requests name only such libraries.
  lemma SplitPlain(name: string)
    ensures PlainLib(Split(name).0)
  {
    hide MatchAt;
    FindSpec(name, SEP);
    hide Find;
    forall i ensures MatchAt(name, SEP, i) <==> 0 <= i && i + 2 <= |name| && name[i] == ':' && name[i + 1] == ':' {
      SepAt(name, i);
    }
    if Find(name, SEP).Some? {
      var p := Find(name, SEP).value;
      var lib := name[..p];
      forall i | 0 <= i < p ensures !(name[i] == ':' && name[i + 1] == ':') {
        assert !MatchAt(name, SEP, i);
      }
      if p > 0 { assert name[p] == ':' && !MatchAt(name, SEP, p - 1); }
      assert forall i :: 0 <= i < p ==> lib[i] == name[i];
    }
  }

  lemma KeyInjective(a: string, b: string, c: string, d: string)
    requires PlainLib(a) && PlainLib(c) && Key(a, b) == Key(c, d)
    ensures a == c && b == d
  {
    hide PlainLib, Split, Key;
    SplitKey(a, b);
    SplitKey(c, d);
  }

  // ---------- Texts the store works on ----------

  // Every pair in names can be told apart in this document.
  ghost predicate GoodDoc(ls: seq<Library>, trail: string, names: set<Name>) {
    DocOk(ls, trail) && forall n :: n in names ==> DocClear(ls, n.0, n.1)
  }

  // And whatever one of them inherits from is one of them.
  ghost predicate GoodText(s: string, names: set<Name>) {
    Enclosed(s, names) && exists ls, trail :: GoodDoc(ls, trail, names) && s == Render(ls, trail)
  }

  // A new profile that can be named, does not mention a name in play that is not its own, and
  // inherits from nothing that is not in play.
  ghost predicate GoodProfile(x: Profile, lib: string, name: string, names: set<Name>) {
    && ProfileOk(x) && NewProfileOk(x) && NameFree(name)
    && (forall n :: n in names ==> TagClear(Open(PROF, Named(x, name).attrs), n.1))
    && match BaseOf(lib, Block(Named(x, name))) case None => true case Some(b) => b in names
  }

  lemma ClearUnshadowed(ps: seq<Profile>, name: string)
    requires ProfilesClear(ps, name)
    ensures !Shadowed(ps, name)
  {
    SlotFirst(ps, name);
    hide Mentions, NameOf, Open, Slot;
  }

  lemma ClearMerged(ls: seq<Library>, k: nat, name: string, x: Profile, lib': string, name': string)
    requires k < |ls| && DocClear(ls, lib', name') && TagClear(Open(PROF, Named(x, name).attrs), name')
    ensures DocClear(ls[k := MergeInto(ls[k], name, x)], lib', name')
  {
    hide Mentions, NameOf, Open, Named, Placed;
    var l, y := ls[k], Named(x, name);
    SameTag(l, name, x);
    match ProfileIndex(l.profiles, name)
    case Some(j) => PlacedBlock(l.profiles[j].lead, y, l.profiles[j].trail);
    case None => PlacedBlock(l.tail, y, "");
  }

  lemma {:induction false} InPairs(lib: string, ns: seq<string>, n: Name)
    ensures n in Pairs(lib, ns) <==> n.0 == lib && n.1 in ns
  {
    if ns != [] {
      InPairs(lib, ns[1..], n);
      assert n == (n.0, n.1);
    }
  }

  // A merge lists the merged profile and unlists none.
  lemma MergeListed(ls: seq<Library>, trail: string, lib: string, name: string, x: Profile, n: Name)
    requires DocOk(ls, trail) && lib != "" && ProfileOk(x) && NewProfileOk(x) && NameFree(name)
    requires Merge(Render(ls, trail), lib, name, RenderProfile(x)) != ""
    ensures var m := Merge(Render(ls, trail), lib, name, RenderProfile(x));
            n in Listing(m) <==> n in Listing(Render(ls, trail)) || n == (lib, name)
  {
    hide DocOk, ProfileOk, NewProfileOk, NameFree, Merge, Listing, DocListing, DocNames, Pairs, Render, RenderProfile,
         LibraryIndex;
    ListingAfterMerge(ls, trail, lib, name, x);
    var ns := DocNames(ls[LibraryIndex(ls, lib).value].profiles);
    InPairs(lib, ns, n);
    InPairs(lib, ns + [name], n);
    assert n == (n.0, n.1);
  }

  lemma GoodMerge(s: string, names: set<Name>, lib: string, name: string, x: Profile)
    requires GoodText(s, names) && GoodProfile(x, lib, name, names) && (lib, name) in names && lib != ""
    requires Merge(s, lib, name, RenderProfile(x)) != ""
    ensures var m := Merge(s, lib, name, RenderProfile(x));
            && GoodText(m, names)
            && Holds(m, (lib, name)) == Block(Named(x, name))
            && (forall n :: n in names && n != (lib, name) ==> Holds(m, n) == Holds(s, n))
            && forall n :: n in names && n != (lib, name) ==> Extract(m, n.0, n.1) == Extract(s, n.0, n.1)
  {
    hide DocOk, ProfileOk, NewProfileOk, NameFree, Merge, Extract, TagClear, Named, Open, RenderProfile, Block,
         MergeInto,
         ProfilesClear, Shadowed, Render, LibraryIndex, Listing, BaseOf, ReadsBack;
    var ls: seq<Library>, trail: string :| GoodDoc(ls, trail, names) && s == Render(ls, trail);
    MergedText(ls, trail, lib, name, x);
    var k := LibraryIndex(ls, lib).value;
    ClearUnshadowed(ls[k].profiles, name);
    assert DocClear(ls, lib, name);
    MergeGetPut(ls, trail, lib, name, x);
    ClearReadsBack(ls, lib, name, Named(x, name));
    var m := DocMerge(ls, lib, name, x).value;
    forall n | n in names ensures DocClear(m, n.0, n.1) { ClearMerged(ls, k, name, x, n.0, n.1); }
    assert GoodDoc(m, trail, names);
    MergeListed(ls, trail, lib, name, x, (lib, name));
    forall n | n in names && n != (lib, name)
      ensures Extract(Merge(s, lib, name, RenderProfile(x)), n.0, n.1) == Extract(s, n.0, n.1)
      ensures n in Listing(Merge(s, lib, name, RenderProfile(x))) <==> n in Listing(s)
    {
      assert n == (n.0, n.1);
      MergeFrame(ls, trail, lib, name, x, n.0, n.1);
      MergeListed(ls, trail, lib, name, x, n);
    }
  }

  // ---------- The template of a new library ----------

  lemma OtherTagPlain(body: string, rest: string)
    requires |body| >= 2 && body[0] != 'q' && body[1] != 'q' && '<' !in body && '<' !in rest
    ensures Plain(OtherTag(body, rest))
  {
    var s, n := OtherTag(body, rest), |body|;
    assert s[0] == '<' && s[1] == body[0] && s[2] == body[1] && s[n + 1] == '>';
    forall i | 0 < i < |s| ensures s[i] != '<' {
      if i <= n { assert s[i] == body[i - 1]; }
      else if i > n + 1 { assert s[i] == rest[i - n - 2]; }
    }
    assert s[1..][n] == '>';
    forall pat | IsMarker(pat) ensures Quiet(s, pat) {
      MarkerShape(pat);
      forall i ensures !MatchAt(s, pat, i) {
        if i == 0 { Mismatch(s, pat, 0, if pat == LIB || pat == PROF then 1 else 2); }
        else if i > 0 { Mismatch(s, pat, i, 0); }
      }
    }
  }

  lemma FramePlain()
    ensures Plain(XML_DECL + DDS_OPEN) && Plain(DDS_CLOSE) && Plain("\n  ")
  {
    assert '<' !in DECL && DECL[0] == '?' && DECL[1] == 'x';
    hide Plain, DECL;
    OtherTagPlain(DECL, "\n");
    OtherTagPlain("dds", "\n  ");
    OtherTagPlain("/dds", "");
    BlankPlain("\n");
    BlankPlain("\n  ");
    hide OtherTag;
    PlainConcat(XML_DECL, DDS_OPEN);
    PlainConcat("\n", OtherTag("/dds", ""));
  }

  function TemplateLibrary(lib: string): Library {
    Library(XML_DECL + DDS_OPEN, " name=\"" + lib + "\"", [], "\n  ")
  }

  lemma TemplateText(lib: string)
    ensures Template(lib) == Render([TemplateLibrary(lib)], DDS_CLOSE)
  {
    var l := TemplateLibrary(lib);
    LibraryFirst([l]);
    assert RenderLibraries([]) == "" && RenderProfiles([]) == "";
    assert Inside(l) == "\n  ";
    var pre := XML_DECL + DDS_OPEN;
    assert Template(lib) == pre + ("<qos_library name=\"" + lib + "\">") + ("\n  " + LIB_END + DDS_CLOSE);
    assert "<qos_library name=\"" == LIB + " name=\"" && "\">" == "\"" + ">";
    hide XML_DECL, DDS_OPEN, DDS_CLOSE, LIB, LIB_END, RenderLibraries;
    TemplateRegroup(pre, LIB, lib, "\n  ", LIB_END, DDS_CLOSE);
  }

  lemma TemplateRegroup(pre: string, m: string, lib: string, tail: string, end: string, close: string)
    ensures var n, q := " name=\"", "\"";
              pre + ((m + n) + lib + (q + ">")) + (tail + end + close)
              == (pre + (m + (n + lib + q) + ">")) + tail + (end + "") + close
  {
    var n, q := " name=\"", "\"";
    assert n == " name=\"" && q == "\"";
    Regroup8(pre, m, n, lib, q, tail, end, close);
  }

  lemma Regroup8(pre: string, m: string, n: string, lib: string, q: string, tail: string, end: string,
                                    close: string)
    ensures pre + ((m + n) + lib + (q + ">")) + (tail + end + close)
         == (pre + (m + (n + lib + q) + ">")) + tail + (end + "") + close
  {
    assert (m + n) + lib + (q + ">") == m + (n + lib + q) + ">";
    var tag := m + (n + lib + q) + ">";
    assert pre + tag + (tail + end + close) == (pre + tag) + tail + (end + "") + close;
  }

  lemma TemplateGood(lib: string, names: set<Name>)
    requires NameFree(lib) && forall n :: n in names ==> QuoteFree(n.0)
    ensures GoodText(Template(lib), names)
  {
    var ls, trail := [TemplateLibrary(lib)], DDS_CLOSE;
    TemplateText(lib);
    FramePlain();
    TemplateAttrs(lib);
    forall n | n in names ensures DocClear(ls, n.0, n.1) {
      hide QuoteFree, Mentions, NameOf, Open;
      NameOnly(LIB, lib, n.0);
    }
    hide Plain, AttrsOk, DocClear, Render, Template, XML_DECL, DDS_OPEN, DDS_CLOSE, Extract, BaseOf;
    assert GoodDoc(ls, trail, names);
    forall n: Name ensures Extract(Template(lib), n.0, n.1) == "" { TemplateEmpty(lib, n.0, n.1); }
    forall n: Name ensures BaseOf(n.0, "") == None { EmptyBase(n.0); }
  }

  lemma EmptyBase(lib: string)
    ensures BaseOf(lib, "") == None
  {
  }

  lemma TemplateEmpty(lib: string, lib': string, name': string)
    requires NameFree(lib)
    ensures Extract(Template(lib), lib', name') == ""
  {
    var ls := [TemplateLibrary(lib)];
    TemplateText(lib);
    TemplateDoc(lib);
    hide DocOk, Render, Template, Mentions, Extract, XML_DECL, DDS_OPEN;
    ExtractDoc(ls, DDS_CLOSE, lib', name');
  }

  lemma TemplateAttrs(lib: string)
    requires NameFree(lib)
    ensures AttrsOk(" name=\"" + lib + "\"")
  {
  }

  // ---------- Updates ----------

  // An update that returns no name changes nothing; one that returns a name was accepted.
  lemma UpdateRefused(st: Store, lib: string, profile: string, xml: string, accepted: bool)
    ensures var r := Update(st, lib, profile, xml, accepted);
            && (r.1 == "" ==> r.0 == st)
            && (r.1 != "" ==> accepted && r.1 == Key(lib, profile))
  {
    hide Merge, BaseText;
    assert Key(lib, profile) != "" by { KeyNonempty(lib, profile); }
    hide Key;
  }

  lemma KeyNonempty(lib: string, profile: string)
    ensures Key(lib, profile) != ""
  {
  }

  // ---------- New libraries ----------

  lemma NoNameIn(s: string)
    requires 'n' !in s
    ensures FindName(s) == Absent
  {
    FindSpec(s, "name=");
    forall i ensures !MatchAt(s, "name=", i) { if i >= 0 { Mismatch(s, "name=", i, 0); } }
  }

  // A profile without attributes can always be given a name.
  lemma BareOk(body: string)
    requires Plain(body)
    ensures ProfileOk(Profile("", "", body, "")) && NewProfileOk(Profile("", "", body, ""))
  {
    BlankPlain("");
    assert 'n' !in Open(PROF, "");
    NoNameIn(Open(PROF, ""));
    hide Plain, FindName;
  }

  // Into a library that neither the dynamic side nor a file knows, an update goes in exactly when a
  // provider can be made of the text.
  lemma NewLibrary(st: Store, lib: string, profile: string, x: Profile, accepted: bool)
    requires lib !in st.libraries && FileText(st.providers, lib) == None
    requires NameFree(lib) && NameFree(profile) && ProfileOk(x) && NewProfileOk(x)
    ensures Update(st, lib, profile, RenderProfile(x), accepted).1 == if accepted then Key(lib, profile) else ""
  {
    var ls := [TemplateLibrary(lib)];
    assert DocOk(ls, DDS_CLOSE) by { TemplateDoc(lib); }
    TemplateText(lib);
    NameFreeNonempty(lib);
    TemplateNamed(lib);
    hide DocOk, ProfileOk, NewProfileOk, NameFree, Merge, Template, Render, RenderProfile, FileText, Key, NameIn;
    assert NameIn(LIB, ls[0].attrs) == lib;
    MergeSucceeds(ls, DDS_CLOSE, lib, profile, x);
  }

  lemma TemplateNamed(lib: string)
    requires NameFree(lib)
    ensures NameIn(LIB, TemplateLibrary(lib).attrs) == lib
  {
    hide Mentions, NameOf, Open, XML_DECL, DDS_OPEN;
    FreeQuoteFree(lib);
    NameOnly(LIB, lib, lib);
  }

  lemma TemplateDoc(lib: string)
    requires NameFree(lib)
    ensures DocOk([TemplateLibrary(lib)], DDS_CLOSE)
  {
    FramePlain();
    TemplateAttrs(lib);
    hide Plain, AttrsOk, XML_DECL, DDS_OPEN, DDS_CLOSE;
  }
}
