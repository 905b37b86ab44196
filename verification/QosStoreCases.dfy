// Runs of the QoS store that exist: a first update, and an update that leaves a profile inheriting
// from it out of date in the cache (RtpDdsGateway/src/qos_store.cpp, lines 714-785).
module QosStoreCases {
  import opened Wrappers
  import opened Text
  import opened QosXml
  import opened QosDoc
  import opened QosReading
  import opened QosNaming
  import opened QosMerge
  import opened QosLaws
  import opened QosTags
  import opened QosChain
  import opened QosStore
  import opened QosStoreLaws
  import opened QosStoreRuns

  // ---------- Printed profiles and their bases ----------

  function Printed(name: string, base: string, body: string): Profile {
    Profile("", PrintedAttrs(name, base), body, "")
  }

  function PrintedRest(base: string): string { if base == "" then "" else " base_name=\"" + base + "\"" }

  lemma PrintedTag(name: string, base: string)
    ensures Open(PROF, PrintedAttrs(name, base)) ==
              (PROF + " ") + NAME + (['"'] + name + ['"'] + (PrintedRest(base) + ">"))
  {
    hide NAME, PROF;
    OpenNamed(PROF, name, PrintedRest(base));
    var h, q := (PROF + " ") + NAME, ['"'];
    assert (h + (q + name + q)) + (PrintedRest(base) + ">") == h + (q + name + q + (PrintedRest(base) + ">"));
  }

  lemma ValueAfter(o: string, n: nat)
    requires Find(o, NAME) == Some(n) && n + 5 < |o| && o[n + 5] == '"' && NameOf(o) != ""
    ensures FindName(o).Value? && FindName(o).from == n + 6
  {
    hide Find;
    assert o[n + 5..][0] == '"';
  }

  lemma FirstOf(t: string)
    ensures Find((PROF + " ") + NAME + t, NAME) == Some(13)
  {
    var pre := PROF + " ";
    forall i | 0 <= i < |pre| ensures !MatchAt(pre + NAME, NAME, i) {
      assert pre[i] != 'n' && (pre + NAME)[i] == pre[i];
      Mismatch(pre + NAME, NAME, i, 0);
    }
    FirstName(pre, t);
  }

  lemma PrintedValue(name: string, base: string)
    requires NameFree(name)
    ensures var o := Open(PROF, PrintedAttrs(name, base));
            && Find(o, NAME) == Some(13) && FindName(o).Value? && FindName(o).from == 19
            && o[19..FindName(o).to] == name
  {
    hide Find, NameOf, Mentions, FindName;
    var o, t := Open(PROF, PrintedAttrs(name, base)), ['"'] + name + ['"'] + (PrintedRest(base) + ">");
    PrintedTag(name, base);
    FirstOf(t);
    NamedOpen(PROF, name, PrintedRest(base));
    NameFreeNonempty(name);
    assert |(PROF + " ") + NAME| == 18 && o[18] == t[0] == '"';
    ValueAfter(o, 13);
    assert NameOf(o) == o[19..FindName(o).to] by { OfValue(o); }
  }

  lemma OfValue(o: string)
    requires FindName(o).Value?
    ensures NameOf(o) == o[FindName(o).from..FindName(o).to]
  {
    hide FindName;
  }

  // A printed tag already has its name where renaming puts it.
  lemma PrintedSame(name: string, base: string)
    requires NameFree(name) && (base == "" || NameFree(base))
    ensures NewProfileOk(Printed(name, base, ""))
            && NewAttrs(PrintedAttrs(name, base), name) == PrintedAttrs(name, base)
  {
    hide Find, FindName, NewAttrs, PrintedAttrs;
    var attrs := PrintedAttrs(name, base);
    var o := Open(PROF, attrs);
    PrintedValue(name, base);
    RenameShape(o, name);
    var v := FindName(o);
    assert o[..v.from] + o[v.from..v.to] + o[v.to..] == o;
    NewAttrsIs(attrs, name, attrs);
    PrintedAttrsOk(name, base);
  }

  lemma PrintedAttrsOk(name: string, base: string)
    requires NameFree(name) && (base == "" || NameFree(base))
    ensures AttrsOk(PrintedAttrs(name, base))
  {
  }

  // What the base is read from: the tag up to its bracket.
  lemma TagOfBlock(p: Profile)
    requires AttrsOk(p.attrs)
    ensures Find(Block(p), ">") == Some(|PROF + p.attrs|) && Block(p)[..|PROF + p.attrs|] == PROF + p.attrs
  {
    var tag, rest := PROF + p.attrs, p.body + PROF_END;
    assert '>' !in PROF;
    hide PROF, PROF_END;
    assert Block(p) == tag + ['>'] + rest;
    FindChar(tag, '>', rest);
  }

  lemma BaseOfTag(p: Profile, lib: string)
    requires AttrsOk(p.attrs)
    ensures var tag := PROF + p.attrs;
            BaseName(Block(p)) ==
            match Find(tag, BASE_NAME) case None => None case Some(i) => QuotedValue(tag[i + |BASE_NAME|..])
  {
    hide Find, QuotedValue, Block, PROF, BASE_NAME;
    TagOfBlock(p);
    var tag := PROF + p.attrs;
    match Find(tag, BASE_NAME)
    case None =>
    case Some(i) => assert Block(p)[i + |BASE_NAME|..|tag|] == tag[i + |BASE_NAME|..];
  }

  // A tag with nothing but a name inherits from nothing, whatever the name.
  lemma NoBase(name: string, body: string, lib: string)
    requires NameFree(name)
    ensures BaseOf(lib, Block(Printed(name, "", body))) == None
  {
    var tag := PROF + PrintedAttrs(name, "");
    PrintedAttrsOk(name, "");
    BaseOfTag(Printed(name, "", body), lib);
    FindSpec(tag, BASE_NAME);
    hide Find;
    match Find(tag, BASE_NAME) {
      case None =>
      case Some(i) =>
        NameTagValue(name, i);
    }
  }

  lemma NameTagValue(name: string, i: nat)
    requires NameFree(name) && MatchAt(PROF + PrintedAttrs(name, ""), BASE_NAME, i)
    ensures QuotedValue((PROF + PrintedAttrs(name, ""))[i + |BASE_NAME|..]) == None
  {
    var tag, pre := PROF + PrintedAttrs(name, ""), PROF + " name=\"";
    assert tag == pre + name + "\"";
    assert |pre| == 19 && pre[8] == 'f';
    hide PROF;
    var k := i + |BASE_NAME|;
    assert tag[i..k][0] == tag[i];
    if k < 18 {
      assert tag[k] == pre[k];
    } else if 18 < k < |tag| - 1 {
      assert tag[k] == name[k - 19];
    } else if k == |tag| - 1 {
      assert tag[k..][1..] == [];
    }
  }

  // And one with a base from it.
  lemma BaseQ(lib: string, p: string, body: string, lib': string)
    requires PlainLib(lib) && NameFree(lib) && NameFree(p)
    ensures BaseOf(lib', Block(Printed("Q", Key(lib, p), body))) == Some((lib, p))
  {
    hide BaseName, PrintedAttrs, PlainLib, Find, Split, QuotedValue, BASE_NAME, Key, Block, Occurs;
    var base := Key(lib, p);
    assert NameFree(base) && '"' !in base by { KeyFree(lib, p); }
    PrintedAttrsOk("Q", base);
    BaseOfTag(Printed("Q", base, body), lib');
    BaseAt(base);
    Quote(base);
    KeySplits(lib, p);
  }

  lemma KeyFree(lib: string, p: string)
    requires NameFree(lib) && NameFree(p)
    ensures NameFree(Key(lib, p))
  {
  }

  lemma BaseAt(base: string)
    requires base != ""
    ensures var tag := PROF + PrintedAttrs("Q", base);
            Find(tag, BASE_NAME) == Some(22) && tag[22 + |BASE_NAME|..] == ['"'] + base + ['"']
  {
    var pre, rest := PROF + " name=\"Q\" ", ['"'] + base + ['"'];
    var tag := PROF + PrintedAttrs("Q", base);
    BaseTag(base);
    assert |pre| == 22 && forall i :: 0 <= i < |pre| ==> pre[i] != 'b';
    assert BASE_NAME[0] == 'b';
    hide PrintedAttrs, PROF, BASE_NAME, MatchAt, Find;
    forall i | 0 <= i < |pre| ensures !MatchAt(tag, BASE_NAME, i) {
      assert tag[i] == pre[i];
      Mismatch(tag, BASE_NAME, i, 0);
    }
    MatchMiddle(pre, BASE_NAME, rest);
    FindIs(tag, BASE_NAME, 22);
  }

  lemma BaseTag(base: string)
    requires base != ""
    ensures PROF + PrintedAttrs("Q", base) == (PROF + " name=\"Q\" ") + BASE_NAME + (['"'] + base + ['"'])
  {
    assert " base_name=\"" == " " + BASE_NAME + ['"'] && "\"" == ['"'];
    assert " name=\"" + "Q" + "\"" + " " == " name=\"Q\" ";
    BaseRegroup(PROF, " name=\"" + "Q" + "\"", " ", BASE_NAME, ['"'], base);
  }

  lemma BaseRegroup(a: string, b: string, c: string, d: string, q: string, base: string)
    ensures a + (b + (c + d + q + base + q)) == (a + (b + c)) + d + (q + base + q)
  {
  }

  lemma Quote(base: string)
    requires '"' !in base
    ensures QuotedValue(['"'] + base + ['"']) == Some(base)
  {
    var s := ['"'] + base + ['"'];
    assert s[1..] == base + ['"'] + "";
    FindChar(base, '"', "");
    assert s[1..][..|base|] == base;
  }

  lemma KeySplits(lib: string, p: string)
    requires PlainLib(lib) && NameFree(lib)
    ensures Occurs(Key(lib, p), SEP) && Split(Key(lib, p)) == (lib, p)
  {
    hide Find, PlainLib, Key;
    SplitKey(lib, p);
  }

  // ---------- A first update ----------

  lemma BareNamed(name: string, body: string)
    requires NameFree(name)
    ensures Named(Profile("", "", body, ""), name) == Printed(name, "", body)
  {
    assert 'n' !in Open(PROF, "");
    NoNameIn(Open(PROF, ""));
    hide FindName, RenameOpening;
    RenameAbsent("", name);
    assert " name=\"" + name + "\"" + "" == PrintedAttrs(name, "");
    NewAttrsIs("", name, PrintedAttrs(name, ""));
  }

  lemma PrintedAlone(name: string, x: string)
    requires NameFree(name) && QuoteFree(x)
    ensures TagClear(Open(PROF, PrintedAttrs(name, "")), x)
  {
    hide Mentions, NameOf;
    NameOnly(PROF, name, x);
    assert " name=\"" + name + "\"" == PrintedAttrs(name, "");
  }

  lemma AloneGood(lib: string, profile: string, x: Profile, names: set<Name>)
    requires NameFree(profile) && ProfileOk(x) && NewProfileOk(x) && Named(x, profile) == Printed(profile, "", x.body)
    requires forall n :: n in names ==> QuoteFree(n.1)
    ensures GoodProfile(x, lib, profile, names)
  {
    hide ProfileOk, NewProfileOk, NameFree, QuoteFree, TagClear, Named, PrintedAttrs, Block, BaseOf;
    NoBase(profile, x.body, lib);
    forall n | n in names ensures TagClear(Open(PROF, Named(x, profile).attrs), n.1) { PrintedAlone(profile, n.1); }
  }

  lemma RunMore(disk: seq<File>, ops: seq<Op>, op: Op)
    ensures Run(disk, ops + [op]) == Apply(Run(disk, ops), op).0
    ensures Written(disk, ops + [op]) ==
            if op.Write? && Apply(Run(disk, ops), op).1 != ""
            then Written(disk, ops)[(op.lib, op.profile) := Block(Named(op.x, op.profile))] else Written(disk, ops)
    ensures Sources(disk, ops + [op]) == Sourced(Run(disk, ops), Sources(disk, ops), op)
  {
    hide Apply, Sourced, Block, Named;
    assert (ops + [op])[..|ops|] == ops;
  }

  lemma GoodMore(disk: seq<File>, ops: seq<Op>, op: Op, names: set<Name>)
    requires GoodRun(disk, ops, names) && GoodOp(op, names)
    ensures GoodRun(disk, ops + [op], names)
  {
    hide GoodNames, GoodDisk, GoodOp;
  }

  lemma NoFiles(lib: string)
    ensures Initial([]).providers == [] && FileText([], lib) == None && lib !in Initial([]).libraries
  {
  }

  // So there are good runs: the first update of any library and profile is one.
  lemma FirstUpdate(lib: string, profile: string, body: string)
    requires PlainLib(lib) && NameFree(lib) && NameFree(profile) && Plain(body)
    ensures var op := Write(lib, profile, Profile("", "", body, ""), true);
            GoodRun([], [op], {(lib, profile)}) && Run([], [op]).index == {Key(lib, profile)}
  {
    var x := Profile("", "", body, "");
    hide Plain, ProfileOk, NewProfileOk, NameFree, PlainLib, Key, RenderProfile, Run, Written, Sources, Update,
         FileText, Merge, BaseText,
         QuoteFree, GoodProfile, Named, Block;
    BareOk(body);
    FreeQuoteFree(lib);
    FreeQuoteFree(profile);
    BareNamed(profile, body);
    AloneGood(lib, profile, x, {(lib, profile)});
    assert [] + [Write(lib, profile, x, true)] == [Write(lib, profile, x, true)];
    assert Run([], []) == Initial([]) by { RunNone([]); }
    RunMore([], [], Write(lib, profile, x, true));
    NoFiles(lib);
    NewLibrary(Initial([]), lib, profile, x, true);
    KeyNonempty(lib, profile);
    UpdateChanges(Initial([]), lib, profile, RenderProfile(x));
  }

  lemma RunNone(disk: seq<File>)
    ensures Run(disk, []) == Initial(disk)
  {
  }

  // ---------- Later updates ----------

  lemma {:induction false} ListedLibrary(ls: seq<Library>, n: Name)
    requires n in DocListing(ls)
    ensures exists i :: 0 <= i < |ls| && NameIn(LIB, ls[i].attrs) == n.0
  {
    hide NameIn, DocNames, Pairs, DocListing;
    DocListingUnfold(ls);
    if ls != [] {
      var lib := NameIn(LIB, ls[0].attrs);
      InPairs(lib, DocNames(ls[0].profiles), n);
      if lib == n.0 {
        assert NameIn(LIB, ls[0].attrs) == n.0;
      } else {
        ListedLibrary(ls[1..], n);
        var i :| 0 <= i < |ls| - 1 && NameIn(LIB, ls[1..][i].attrs) == n.0;
        assert NameIn(LIB, ls[i + 1].attrs) == n.0;
      }
    }
  }

  // A text that lists a profile of the library can be merged into.
  lemma ListedMerges(s: string, names: set<Name>, n: Name, name: string, x: Profile)
    requires GoodText(s, names) && n in Listing(s) && n.0 != "" && ProfileOk(x) && NewProfileOk(x) && NameFree(name)
    ensures Merge(s, n.0, name, RenderProfile(x)) != ""
  {
    hide Enclosed, DocOk, DocClear, ProfileOk, NewProfileOk, NameFree, Listing, DocListing, Merge, Render,
         RenderProfile, NameIn;
    var ls: seq<Library>, trail: string :| GoodDoc(ls, trail, names) && s == Render(ls, trail);
    ListingDoc(ls, trail);
    ListedLibrary(ls, n);
    MergeSucceeds(ls, trail, n.0, name, x);
  }

  // Into a library that has been written to before, an update goes in exactly when a provider can be made.
  lemma LaterUpdate(disk: seq<File>, ops: seq<Op>, names: set<Name>, n: Name, profile: string, x: Profile,
                    accepted: bool)
    requires GoodRun(disk, ops, names) && n in Written(disk, ops) && NameFree(n.0)
    requires ProfileOk(x) && NewProfileOk(x) && NameFree(profile)
    ensures Update(Run(disk, ops), n.0, profile, RenderProfile(x), accepted).1 ==
            if accepted then Key(n.0, profile) else ""
  {
    RunInv(disk, ops, names);
    hide GoodRun, GoodText, ProfileOk, NewProfileOk, NameFree, Merge, RenderProfile, Key, Run, Written, Sources,
         Cached, Extract;
    var st, w := Run(disk, ops), Written(disk, ops);
    NameFreeNonempty(n.0);
    assert Fresh(st, w, Sources(disk, ops), n, names);
    ListedMerges(st.libraries[n.0], names, n, profile, x);
    BaseKnown(st, n.0);
  }

  // ---------- An update that leaves another profile behind ----------

  // Profile P, and Q which inherits from it by its full name.
  function First(body: string): Profile { Printed("P", "", body) }

  function Second(lib: string, body: string): Profile { Printed("Q", Key(lib, "P"), body) }

  function Both(lib: string): set<Name> { {(lib, "P"), (lib, "Q")} }

  function Opening(lib: string, a: string): seq<Op> { [] + [Write(lib, "P", First(a), true)] }

  function Building(lib: string, a: string, c: string): seq<Op> {
    Opening(lib, a) + [Write(lib, "Q", Second(lib, c), true)]
  }

  function Asking(lib: string, a: string, c: string): seq<Op> { Building(lib, a, c) + [Ask(lib, "Q", [])] }

  function Changing(lib: string, a: string, c: string, b: string): seq<Op> {
    Asking(lib, a, c) + [Write(lib, "P", First(b), true)]
  }

  ghost predicate Sound(lib: string) { PlainLib(lib) && NameFree(lib) }

  lemma PrintedOk(name: string, base: string, body: string)
    requires NameFree(name) && (base == "" || NameFree(base)) && Plain(body)
    ensures var x := Printed(name, base, body); ProfileOk(x) && NewProfileOk(x) && Named(x, name) == x
  {
    hide Plain, NewAttrs, Nameable, PrintedAttrs, NameFree;
    PrintedSame(name, base);
    BlankPlain("");
  }

  lemma FirstIsGood(lib: string, body: string)
    requires Sound(lib) && Plain(body)
    ensures var x := First(body);
            && ProfileOk(x) && NewProfileOk(x) && NameFree("P") && Named(x, "P") == x
            && GoodProfile(x, lib, "P", Both(lib))
  {
    assert NameFree("P") && QuoteFree("P") && QuoteFree("Q");
    hide Plain, ProfileOk, NewProfileOk, Named, PrintedAttrs, GoodProfile, PlainLib, NameFree, QuoteFree;
    PrintedOk("P", "", body);
    AloneGood(lib, "P", First(body), Both(lib));
  }

  lemma SecondIsGood(lib: string, body: string)
    requires Sound(lib) && Plain(body)
    ensures var x := Second(lib, body);
            && ProfileOk(x) && NewProfileOk(x) && NameFree("Q") && Named(x, "Q") == x
            && GoodProfile(x, lib, "Q", Both(lib)) && BaseOf(lib, Block(x)) == Some((lib, "P"))
  {
    assert NameFree("P") && NameFree("Q") && QuoteFree("P") && QuoteFree("Q");
    var base := Key(lib, "P");
    assert |base| >= 3 && base != "Q";
    hide Plain, ProfileOk, NewProfileOk, Named, PrintedAttrs, PlainLib, NameFree, QuoteFree, Key, TagClear, BaseOf,
         Block;
    KeyFree(lib, "P");
    NameFreeNonempty(base);
    PrintedOk("Q", base, body);
    BaseQ(lib, "P", body, lib);
    forall n | n in Both(lib) ensures TagClear(Open(PROF, PrintedAttrs("Q", base)), n.1) {
      PrintedClear("Q", base, n.1);
    }
  }

  lemma NothingGood(lib: string)
    requires Sound(lib)
    ensures GoodRun([], [], Both(lib)) && Run([], []) == Initial([]) && Written([], []) == map[]
  {
    hide PlainLib;
    FreeQuoteFree(lib);
    RunNone([]);
  }

  lemma Opened(lib: string, a: string)
    requires Sound(lib) && Plain(a)
    ensures GoodRun([], Opening(lib, a), Both(lib))
            && Written([], Opening(lib, a)) == map[(lib, "P") := Block(First(a))]
  {
    hide Plain, ProfileOk, NewProfileOk, NameFree, PlainLib, GoodRun, GoodProfile, Run, Written, Sources, Update, Key,
         Block,
         FileText, First, Named, RenderProfile;
    FirstIsGood(lib, a);
    NothingGood(lib);
    GoodMore([], [], Write(lib, "P", First(a), true), Both(lib));
    RunMore([], [], Write(lib, "P", First(a), true));
    NoFiles(lib);
    NewLibrary(Initial([]), lib, "P", First(a), true);
    KeyNonempty(lib, "P");
  }

  lemma Built(lib: string, a: string, c: string)
    requires Sound(lib) && Plain(a) && Plain(c)
    ensures var ops := Building(lib, a, c);
            && GoodRun([], ops, Both(lib)) && Key(lib, "Q") !in Run([], ops).cache
            && Written([], ops) == map[(lib, "P") := Block(First(a)), (lib, "Q") := Block(Second(lib, c))]
  {
    hide Plain, ProfileOk, NewProfileOk, NameFree, PlainLib, GoodRun, GoodProfile, Run, Written, Sources, Update, Key,
         Block,
         First, Second, Named, RenderProfile, Opening;
    SecondIsGood(lib, c);
    Opened(lib, a);
    var ops, op := Opening(lib, a), Write(lib, "Q", Second(lib, c), true);
    GoodMore([], ops, op, Both(lib));
    RunMore([], ops, op);
    LaterUpdate([], ops, Both(lib), (lib, "P"), "Q", Second(lib, c), true);
    KeyNonempty(lib, "Q");
    UpdateChanges(Run([], ops), lib, "Q", RenderProfile(Second(lib, c)));
  }

  lemma Asked(lib: string, a: string, c: string)
    requires Sound(lib) && Plain(a) && Plain(c)
    ensures var ops, p, q := Asking(lib, a, c), (lib, "P"), (lib, "Q");
            && GoodRun([], ops, Both(lib)) && Key(lib, "Q") in Run([], ops).cache
            && Written([], ops) == map[p := Block(First(a)), q := Block(Second(lib, c))]
            && q in Sources([], ops) && Holds(Sources([], ops)[q], p) == Block(First(a))
  {
    hide Plain, PlainLib, NameFree, GoodRun, Run, Written, Sources, Key, Block, First, Second, Building, Holds, Given,
         Lookup,
         FromDynamic, Cached;
    Built(lib, a, c);
    var ops, op, p, q := Building(lib, a, c), Ask(lib, "Q", []), (lib, "P"), (lib, "Q");
    assert GoodOp(op, Both(lib));
    GoodMore([], ops, op, Both(lib));
    RunMore([], ops, op);
    RunInv([], ops, Both(lib));
    var st, w, src := Run([], ops), Written([], ops), Sources([], ops);
    assert Fresh(st, w, src, p, Both(lib)) && Fresh(st, w, src, q, Both(lib));
    assert st.dynamic == st.libraries by { SameTexts(st, Both(lib)); }
    hide Texts, Fresh;
    assert q.0 == lib && q.1 == "Q";
    assert Fresh(st, w, src, q, Both(lib));
    FreshFound(st, w, src, q, Both(lib), []);
  }

  // Changing P's text leaves Q, once asked for, as it was: its lookup gives what P's old text makes
  // of it, although its library's provider gives something else by now.
  lemma StaleBase(lib: string, a: string, c: string, b: string)
    requires Sound(lib) && Plain(a) && Plain(c) && Plain(b) && a != b
    ensures var ops := Changing(lib, a, c, b);
            var st := Run([], ops);
            && GoodRun([], ops, Both(lib)) && Key(lib, "Q") in st.index
            && Lookup(st, [], lib, "Q").1 != FromDynamic(st, lib, "Q")
  {
    hide Plain, ProfileOk, NewProfileOk, NameFree, PlainLib, GoodRun, GoodProfile, Run, Written, Sources, Update, Key,
         Block,
         First, Second, Named, RenderProfile, Asking, Holds, Lookup, FromDynamic, BaseOf, Fresh;
    var ops, op, p, q := Asking(lib, a, c), Write(lib, "P", First(b), true), (lib, "P"), (lib, "Q");
    Asked(lib, a, c);
    FirstIsGood(lib, b);
    GoodMore([], ops, op, Both(lib));
    RunMore([], ops, op);
    LaterUpdate([], ops, Both(lib), p, "P", First(b), true);
    KeyNonempty(lib, "P");
    UpdateChanges(Run([], ops), lib, "P", RenderProfile(First(b)));
    KeysApart(lib);
    var st, w, src := Run([], ops + [op]), Written([], ops + [op]), Sources([], ops + [op]);
    assert Key(lib, "Q") in st.cache && q in src && w[q] == Block(Second(lib, c)) && w[p] == Block(First(b));
    SecondIsGood(lib, c);
    assert p in Members(src[q], q.0, w[q], {q});
    BlocksDiffer(a, b);
    assert !UpToDate(st, w, src, q);
    RunInv([], ops + [op], Both(lib));
    assert Key(q.0, q.1) in st.index;
    KeySplits(lib, "Q");
    DynamicWins([], ops + [op], Both(lib), Key(lib, "Q"), []);
  }

  lemma KeysApart(lib: string)
    ensures Key(lib, "P") != Key(lib, "Q")
  {
    assert Key(lib, "P")[|lib| + 2] == 'P' && Key(lib, "Q")[|lib| + 2] == 'Q';
  }

  lemma BlocksDiffer(a: string, b: string)
    ensures Block(First(a)) == Block(First(b)) ==> a == b
  {
    hide PrintedAttrs, PROF_END;
    var o := Open(PROF, PrintedAttrs("P", ""));
    if Block(First(a)) == Block(First(b)) {
      assert |a| == |b|;
      assert Block(First(a))[|o|..|o| + |a|] == a && Block(First(b))[|o|..|o| + |b|] == b;
    }
  }
}
