// Which file a lookup answers from, and what it leaves behind (RtpDdsGateway/src/qos_store.cpp, lines
// 355-507).
module QosLookup {
  import opened Wrappers
  import opened Text
  import opened QosXml
  import opened QosDoc
  import opened QosNaming
  import opened QosMerge
  import opened QosLaws
  import opened QosChain
  import opened QosStore
  import opened QosStoreLaws
  import opened QosStoreRuns

  // ---------- Names listed ----------

  lemma {:induction false} FullNamesAre(pairs: seq<Name>)
    ensures |FullNames(pairs)| == |pairs|
    ensures forall i :: 0 <= i < |pairs| ==> FullNames(pairs)[i] == pairs[i].0 + "::" + pairs[i].1
  {
    if pairs != [] {
      FullNamesAre(pairs[1..]);
      forall i | 1 <= i < |pairs| ensures pairs[i] == pairs[1..][i - 1] {}
    }
  }

  // Names of libraries that full names split back into are told apart in a list.
  lemma FullNamesIff(pairs: seq<Name>, lib: string, profile: string)
    requires PlainLib(lib) && forall i :: 0 <= i < |pairs| ==> PlainLib(pairs[i].0)
    ensures lib + "::" + profile in FullNames(pairs) <==> (lib, profile) in pairs
  {
    hide PlainLib;
    FullNamesAre(pairs);
    var k := lib + "::" + profile;
    assert Key(lib, profile) == k;
    if k in FullNames(pairs) {
      var i :| 0 <= i < |pairs| && FullNames(pairs)[i] == k;
      assert Key(pairs[i].0, pairs[i].1) == k;
      KeyInjective(lib, profile, pairs[i].0, pairs[i].1);
    }
  }

  ghost predicate Lists(content: string, k: string) {
    exists i :: 0 <= i < |Listing(content)| && Listing(content)[i].0 + "::" + Listing(content)[i].1 == k
  }

  lemma ListedExactly(content: string, k: string)
    ensures k in Listed(content) <==> Lists(content, k)
  {
    hide Listing;
    FullNamesAre(Listing(content));
    if k in Listed(content) {
      var i :| 0 <= i < |Listing(content)| && FullNames(Listing(content))[i] == k;
    }
  }

  // ---------- A second look at a file ----------

  // File i is the first at that path.
  predicate IsAt(disk: seq<File>, path: string, i: int) {
    0 <= i < |disk| && disk[i].path == path && forall h :: 0 <= h < i ==> disk[h].path != path
  }

  lemma {:induction false} FileAtIs(disk: seq<File>, path: string, i: int)
    requires IsAt(disk, path, i)
    ensures FileAt(disk, path) == Some(disk[i])
  {
    if i > 0 {
      assert disk[0].path != path;
      assert forall h :: 0 <= h < |disk| - 1 ==> disk[1..][h] == disk[h + 1];
      FileAtIs(disk[1..], path, i - 1);
    }
  }

  lemma {:induction false} FileAtNone(disk: seq<File>, path: string)
    ensures FileAt(disk, path).Some? ==> exists i :: IsAt(disk, path, i)
  {
    if disk != [] && FileAt(disk, path).Some? {
      if disk[0].path == path {
        assert IsAt(disk, path, 0);
      } else {
        FileAtNone(disk[1..], path);
        var i :| IsAt(disk[1..], path, i);
        assert forall h :: 0 < h < |disk| ==> disk[h] == disk[1..][h - 1];
        assert IsAt(disk, path, i + 1);
      }
    }
  }

  // File i of the disk is the provider's, written again since it was listed.
  predicate Rewritten(p: FileProvider, disk: seq<File>, i: int) {
    IsAt(disk, p.path, i) && disk[i].mtime != p.mtime
  }

  // q is p after a look for k: listed again if it did not list k and has been rewritten.
  ghost predicate Looked(p: FileProvider, disk: seq<File>, k: string, q: FileProvider) {
    && q.path == p.path && q.content == p.content
    && ((k in p.profiles || forall i :: !Rewritten(p, disk, i)) ==> q == p)
    && forall i :: k !in p.profiles && Rewritten(p, disk, i) ==>
         q.mtime == disk[i].mtime && forall n :: n in q.profiles <==> Lists(disk[i].content, n)
  }

  lemma RefreshedExactly(p: FileProvider, disk: seq<File>, k: string)
    ensures Looked(p, disk, k, Refreshed(p, disk, k))
  {
    hide Lists, Listed, IsAt;
    forall i | IsAt(disk, p.path, i) ensures 0 <= i < |disk| && FileAt(disk, p.path) == Some(disk[i]) {
      AtSomething(disk, p.path, i);
      FileAtIs(disk, p.path, i);
    }
    FileAtNone(disk, p.path);
    if FileAt(disk, p.path).Some? {
      var i :| IsAt(disk, p.path, i);
      assert Rewritten(p, disk, i) <==> disk[i].mtime != p.mtime;
    }
    forall content, n ensures n in Listed(content) <==> Lists(content, n) { ListedExactly(content, n); }
  }

  lemma AtSomething(disk: seq<File>, path: string, i: int)
    requires IsAt(disk, path, i)
    ensures 0 <= i < |disk| && disk[i].path == path
  {
  }

  // ---------- Which file answers ----------

  // It lists the profile, perhaps on a second look, and its provider has it.
  ghost predicate Answers(p: FileProvider, disk: seq<File>, lib: string, profile: string) {
    var k := lib + "::" + profile;
    && (k in p.profiles || exists i :: Rewritten(p, disk, i) && Lists(disk[i].content, k))
    && Extract(p.content, lib, profile) != ""
  }

  lemma AnswersExactly(p: FileProvider, disk: seq<File>, lib: string, profile: string)
    ensures var q := Refreshed(p, disk, Key(lib, profile));
            FromFile(q, lib, profile) ==
            if Answers(p, disk, lib, profile) then PackOf(p.content, lib, profile, p.path) else None
  {
    var k := lib + "::" + profile;
    assert Key(lib, profile) == k;
    RefreshedExactly(p, disk, k);
    hide Extract, Lists, Refreshed, Follow;
  }

  // What the files give: the pack of the last one that answers, or nothing because none does.
  ghost predicate FilesGive(ps: seq<FileProvider>, disk: seq<File>, lib: string, profile: string, r: Option<Pack>) {
    match r
    case None => forall i :: 0 <= i < |ps| ==> !Answers(ps[i], disk, lib, profile)
    case Some(_) =>
      exists i :: && 0 <= i < |ps| && Answers(ps[i], disk, lib, profile)
                  && r == PackOf(ps[i].content, lib, profile, ps[i].path)
                  && forall h :: i < h < |ps| ==> !Answers(ps[h], disk, lib, profile)
  }

  // The files after the one that answers have been looked at, and it too; the others stay.
  ghost predicate LookedAt(ps: seq<FileProvider>, disk: seq<File>, lib: string, profile: string,
                           qs: seq<FileProvider>) {
    && |qs| == |ps|
    && forall h :: 0 <= h < |ps| ==>
         if exists i :: h < i < |ps| && Answers(ps[i], disk, lib, profile) then qs[h] == ps[h]
         else Looked(ps[h], disk, lib + "::" + profile, qs[h])
  }

  lemma {:induction false} ResolveLast(ps: seq<FileProvider>, disk: seq<File>, lib: string, profile: string)
    ensures FilesGive(ps, disk, lib, profile, Resolve(ps, disk, lib, profile).1)
    ensures LookedAt(ps, disk, lib, profile, Resolve(ps, disk, lib, profile).0)
    decreases |ps|
  {
    hide Extract, Refreshed, Follow, Resolve, Answers, Looked, FromFile, PackOf;
    if ps == [] {
      ResolveNone(disk, lib, profile);
    } else {
      var n := |ps| - 1;
      ResolveStep(ps, disk, lib, profile);
      ResolveLast(ps[..n], disk, lib, profile);
      AnswersExactly(ps[n], disk, lib, profile);
      assert Key(lib, profile) == lib + "::" + profile;
      RefreshedExactly(ps[n], disk, Key(lib, profile));
      AnswersPack(ps[n], disk, lib, profile);
    }
  }

  lemma AnswersPack(p: FileProvider, disk: seq<File>, lib: string, profile: string)
    ensures Answers(p, disk, lib, profile) ==> PackOf(p.content, lib, profile, p.path).Some?
  {
    hide Extract, Follow;
  }

  // ---------- Lookups ----------

  // The dynamic side does not give the profile.
  predicate NotDynamic(st: Store, lib: string, profile: string) {
    lib in st.dynamic ==> Extract(st.dynamic[lib], lib, profile) == ""
  }

  lemma NotDynamicExactly(st: Store, lib: string, profile: string)
    ensures NotDynamic(st, lib, profile) <==> FromDynamic(st, lib, profile) == None
  {
    hide Extract, Follow;
  }

  ghost predicate SomeAnswers(ps: seq<FileProvider>, disk: seq<File>, lib: string, profile: string) {
    exists i :: 0 <= i < |ps| && Answers(ps[i], disk, lib, profile)
  }

  // A name that is cached is answered from the cache and nothing changes; one that the dynamic side
  // gives is cached.
  lemma LookupAbove(st: Store, disk: seq<File>, lib: string, profile: string)
    ensures var k, r := lib + "::" + profile, Lookup(st, disk, lib, profile);
            && (k in st.cache ==> r == (st, Some(st.cache[k])))
            && (k !in st.cache && !NotDynamic(st, lib, profile) ==>
                  && r.1 == PackOf(st.dynamic[lib], lib, profile, "(dynamic)") && r.1.Some?
                  && r.0 == st.(cache := st.cache[k := r.1.value]))
  {
    NotDynamicExactly(st, lib, profile);
    assert Key(lib, profile) == lib + "::" + profile;
    hide PackOf, NotDynamic, Resolve, Load;
  }

  lemma LookupUnfold(st: Store, disk: seq<File>, lib: string, profile: string)
    requires Key(lib, profile) !in st.cache && FromDynamic(st, lib, profile) == None
    ensures var k, once, again := Key(lib, profile), Resolve(st.providers, disk, lib, profile),
                                  Resolve(Load(disk), disk, lib, profile);
            Lookup(st, disk, lib, profile) ==
            if once.1.Some? then (st.(providers := once.0, cache := st.cache[k := once.1.value]), once.1)
            else if again.1.Some? then
              (st.(providers := again.0, cache := map[k := again.1.value], version := st.version + 2), again.1)
            else (st.(providers := again.0, cache := map[], version := st.version + 1), None)
  {
    hide Key, FromDynamic, Resolve, Load;
  }

  lemma GivesSome(ps: seq<FileProvider>, disk: seq<File>, lib: string, profile: string, r: Option<Pack>)
    requires FilesGive(ps, disk, lib, profile, r)
    ensures r.Some? <==> SomeAnswers(ps, disk, lib, profile)
  {
    hide Answers, PackOf;
  }

  // Any other name is given by the last loaded file that answers. When none does the files are
  // loaded anew, and the last of those that answers gives it; nothing is found only when none does.
  lemma LookupFiles(st: Store, disk: seq<File>, lib: string, profile: string)
    requires lib + "::" + profile !in st.cache && NotDynamic(st, lib, profile)
    ensures var (st', r) := Lookup(st, disk, lib, profile);
            var k, known := lib + "::" + profile, SomeAnswers(st.providers, disk, lib, profile);
            && FilesGive(if known then st.providers else Load(disk), disk, lib, profile, r)
            && LookedAt(if known then st.providers else Load(disk), disk, lib, profile, st'.providers)
            && (known ==> r.Some?)
            && st' ==
               if known then st.(providers := st'.providers, cache := st.cache[k := r.value])
               else if r.Some? then
                 st.(providers := st'.providers, cache := map[k := r.value], version := st.version + 2)
               else st.(providers := st'.providers, cache := map[], version := st.version + 1)
  {
    NotDynamicExactly(st, lib, profile);
    assert Key(lib, profile) == lib + "::" + profile;
    hide FromDynamic, NotDynamic, Resolve, Load, LookedAt, SomeAnswers, FilesGive, Lookup, Key;
    ResolveLast(st.providers, disk, lib, profile);
    GivesSome(st.providers, disk, lib, profile, Resolve(st.providers, disk, lib, profile).1);
    ResolveLast(Load(disk), disk, lib, profile);
    LookupUnfold(st, disk, lib, profile);
  }

  // ---------- Runs ----------

  predicate PathsDiffer(disk: seq<File>) {
    forall i, h :: 0 <= i < h < |disk| ==> disk[i].path != disk[h].path
  }

  ghost predicate Has(f: File, lib: string, profile: string) {
    Lists(f.content, lib + "::" + profile) && Extract(f.content, lib, profile) != ""
  }

  lemma JustLoaded(disk: seq<File>, i: nat)
    requires PathsDiffer(disk) && i < |disk|
    ensures forall h :: !Rewritten(Load(disk)[i], disk, h)
  {
    hide Listed;
  }

  // A file just loaded answers exactly for the profiles it lists and has.
  lemma LoadedAnswers(disk: seq<File>, i: nat, lib: string, profile: string)
    requires PathsDiffer(disk) && i < |disk|
    ensures Answers(Load(disk)[i], disk, lib, profile) <==> Has(disk[i], lib, profile)
  {
    hide Extract, Listed, Lists, Rewritten, PathsDiffer;
    ListedExactly(disk[i].content, lib + "::" + profile);
    JustLoaded(disk, i);
  }

  // The last file on the disk that has the profile gives it, and none does only when none has it.
  ghost predicate DiskGives(disk: seq<File>, lib: string, profile: string, r: Option<Pack>) {
    match r
    case None => forall i :: 0 <= i < |disk| ==> !Has(disk[i], lib, profile)
    case Some(_) =>
      exists i :: && 0 <= i < |disk| && Has(disk[i], lib, profile)
                  && r == PackOf(disk[i].content, lib, profile, disk[i].path)
                  && forall h :: i < h < |disk| ==> !Has(disk[h], lib, profile)
  }

  lemma LoadedGive(disk: seq<File>, lib: string, profile: string, r: Option<Pack>)
    requires PathsDiffer(disk) && FilesGive(Load(disk), disk, lib, profile, r)
    ensures DiskGives(disk, lib, profile, r)
  {
    hide Answers, Has, PackOf, PathsDiffer, Listed;
    forall i: nat | i < |disk| ensures Answers(Load(disk)[i], disk, lib, profile) <==> Has(disk[i], lib, profile) {
      LoadedAnswers(disk, i, lib, profile);
    }
  }

  // After any run and a reload, a name that the dynamic side does not give is found as the disk has it.
  lemma AfterRescan(disk: seq<File>, ops: seq<Op>, now: seq<File>, lib: string, profile: string)
    requires PathsDiffer(now) && NotDynamic(Run(disk, ops), lib, profile)
    ensures DiskGives(now, lib, profile, Lookup(Run(disk, ops + [Rescan(now)]), now, lib, profile).1)
  {
    var st := Run(disk, ops + [Rescan(now)]);
    assert (ops + [Rescan(now)])[..|ops|] == ops;
    assert st == Reload(Run(disk, ops), now);
    hide Run, Lookup, NotDynamic, FilesGive, LookedAt, SomeAnswers, Load, PathsDiffer, DiskGives;
    assert NotDynamic(st, lib, profile) by { SameDynamic(Run(disk, ops), st, lib, profile); }
    LookupFiles(st, now, lib, profile);
    LoadedGive(now, lib, profile, Lookup(st, now, lib, profile).1);
  }

  lemma SameDynamic(st: Store, st': Store, lib: string, profile: string)
    requires st.dynamic == st'.dynamic
    ensures NotDynamic(st, lib, profile) <==> NotDynamic(st', lib, profile)
  {
    hide Extract;
  }

  // Whether an operation loads the files anew.
  ghost predicate Reloads(st: Store, op: Op) {
    match op
    case Rescan(_) => true
    case Write(_, _, _, _) => false
    case Ask(lib, profile, disk) =>
      && lib + "::" + profile !in st.cache && NotDynamic(st, lib, profile)
      && !SomeAnswers(st.providers, disk, lib, profile)
  }

  // The disk as it was when the files were last loaded.
  ghost function LastLoaded(disk: seq<File>, ops: seq<Op>): seq<File> {
    if ops == [] then disk
    else
      var before, op := ops[..|ops| - 1], ops[|ops| - 1];
      if Reloads(Run(disk, before), op) then op.disk else LastLoaded(disk, before)
  }

  // The pack under k comes from the dynamic side or from a file of that disk.
  ghost predicate Origin(k: string, pack: Pack, disk: seq<File>) {
    pack.origin == DYNAMIC ||
    exists n: Name, i ::
      n.0 + "::" + n.1 == k && 0 <= i < |disk| && Some(pack) == PackOf(disk[i].content, n.0, n.1, disk[i].path)
  }

  predicate SameFiles(ps: seq<FileProvider>, disk: seq<File>) {
    |ps| == |disk| && forall i :: 0 <= i < |ps| ==> ps[i].path == disk[i].path && ps[i].content == disk[i].content
  }

  ghost predicate NothingOlder(st: Store, disk: seq<File>) {
    SameFiles(st.providers, disk) && forall k :: k in st.cache ==> Origin(k, st.cache[k], disk)
  }

  lemma GivenOrigin(ps: seq<FileProvider>, disk: seq<File>, now: seq<File>, lib: string, profile: string,
                    r: Option<Pack>)
    requires SameFiles(ps, disk) && FilesGive(ps, now, lib, profile, r)
    ensures r.Some? ==> Origin(lib + "::" + profile, r.value, disk)
  {
    hide Answers, PackOf;
    if r.Some? {
      var i :| && 0 <= i < |ps| && Answers(ps[i], now, lib, profile)
               && r == PackOf(ps[i].content, lib, profile, ps[i].path)
               && forall h :: i < h < |ps| ==> !Answers(ps[h], now, lib, profile);
      var n := (lib, profile);
      assert n.0 + "::" + n.1 == lib + "::" + profile;
      assert Some(r.value) == PackOf(disk[i].content, n.0, n.1, disk[i].path);
    }
  }

  lemma LookedSame(ps: seq<FileProvider>, now: seq<File>, lib: string, profile: string, qs: seq<FileProvider>,
                   disk: seq<File>)
    requires LookedAt(ps, now, lib, profile, qs) && SameFiles(ps, disk)
    ensures SameFiles(qs, disk)
  {
    hide Answers, Lists, Rewritten;
  }

  lemma AskOrigin(st: Store, disk: seq<File>, lib: string, profile: string, now: seq<File>)
    requires NothingOlder(st, disk)
    ensures var r, d := Lookup(st, now, lib, profile), if Reloads(st, Ask(lib, profile, now)) then now else disk;
            NothingOlder(r.0, d) && (r.1.Some? ==> Origin(lib + "::" + profile, r.1.value, d))
  {
    hide SomeAnswers, Lookup, FilesGive, LookedAt, SameFiles, Origin, PackOf, Extract;
    LookupAbove(st, now, lib, profile);
    if lib + "::" + profile !in st.cache {
      if NotDynamic(st, lib, profile) {
        LookupFiles(st, now, lib, profile);
        LoadSame(now);
        var known := SomeAnswers(st.providers, now, lib, profile);
        var ps, d := if known then st.providers else Load(now), if known then disk else now;
        var r := Lookup(st, now, lib, profile);
        GivenOrigin(ps, d, now, lib, profile, r.1);
        LookedSame(ps, now, lib, profile, r.0.providers, d);
      } else {
        DynamicOrigin(st, lib, profile, disk);
      }
    }
  }

  lemma LoadSame(disk: seq<File>)
    ensures SameFiles(Load(disk), disk)
  {
    hide Listed;
  }

  lemma DynamicOrigin(st: Store, lib: string, profile: string, disk: seq<File>)
    ensures lib in st.dynamic && PackOf(st.dynamic[lib], lib, profile, DYNAMIC).Some? ==>
              Origin(lib + "::" + profile, PackOf(st.dynamic[lib], lib, profile, DYNAMIC).value, disk)
  {
    hide Extract, Follow;
  }

  // After any run every provider and every cached pack that no update gave is that of a file as it was
  // when the files were last loaded.
  lemma {:induction false} RunOrigin(disk: seq<File>, ops: seq<Op>)
    ensures NothingOlder(Run(disk, ops), LastLoaded(disk, ops))
  {
    hide Lookup, Update, Load, SameFiles, Origin, RenderProfile, NotDynamic, SomeAnswers;
    if ops == [] {
      LoadSame(disk);
    } else {
      var before, op := ops[..|ops| - 1], ops[|ops| - 1];
      RunOrigin(disk, before);
      var st := Run(disk, before);
      match op
      case Ask(lib, profile, now) => AskOrigin(st, LastLoaded(disk, before), lib, profile, now);
      case Rescan(now) => LoadSame(now);
      case Write(lib, profile, x, accepted) => WriteOrigin(st, lib, profile, RenderProfile(x), accepted);
    }
  }

  lemma WriteOrigin(st: Store, lib: string, profile: string, xml: string, accepted: bool)
    ensures var st' := Update(st, lib, profile, xml, accepted).0;
            st'.providers == st.providers && st'.cache.Keys <= st.cache.Keys &&
            forall k :: k in st'.cache ==> st'.cache[k] == st.cache[k]
  {
    hide Merge, BaseText, Key;
  }

  // So nothing older is ever given.
  lemma NeverOlder(disk: seq<File>, ops: seq<Op>, lib: string, profile: string, now: seq<File>)
    ensures var r := Lookup(Run(disk, ops), now, lib, profile).1;
            r.Some? ==> Origin(lib + "::" + profile, r.value, LastLoaded(disk, ops + [Ask(lib, profile, now)]))
  {
    hide Lookup, Origin, NothingOlder, Run, Reloads;
    RunOrigin(disk, ops);
    AskOrigin(Run(disk, ops), LastLoaded(disk, ops), lib, profile, now);
    assert (ops + [Ask(lib, profile, now)])[..|ops|] == ops;
  }

  // What is found is the profile's block and the chain of what it inherits, and where it came from.
  lemma PackExactly(content: string, lib: string, profile: string, origin: string)
    ensures match PackOf(content, lib, profile, origin)
            case None => Extract(content, lib, profile) == ""
            case Some(r) =>
              && r.origin == origin && |r.blocks| > 0 && r.blocks[0] == Extract(content, lib, profile) != ""
              && exists ns :: Chain(content, ns, r.blocks) && ns[0] == (lib, profile)
  {
    FollowLinks(content, (lib, profile), Extract(content, lib, profile));
    hide Extract, Follow, Chain;
  }

  // ---------- What an update starts from ----------

  ghost predicate Naming(content: string, lib: string) {
    exists k :: MatchAt(content, "<qos_library name=\"" + lib + "\"", k)
  }

  lemma OccursExactly(content: string, lib: string)
    ensures Occurs(content, "<qos_library name=\"" + lib + "\"") <==> Naming(content, lib)
  {
    FindSpec(content, "<qos_library name=\"" + lib + "\"");
    hide MatchAt, Find;
  }

  // The first loaded file that names the library, or none does.
  lemma {:induction false} FileTextExactly(ps: seq<FileProvider>, lib: string)
    ensures match FileText(ps, lib)
            case None => forall i :: 0 <= i < |ps| ==> !Naming(ps[i].content, lib)
            case Some(s) =>
              exists i :: && 0 <= i < |ps| && s == ps[i].content && Naming(ps[i].content, lib)
                          && forall h :: 0 <= h < i ==> !Naming(ps[h].content, lib)
  {
    hide Naming, Occurs;
    if ps != [] {
      FileTextExactly(ps[1..], lib);
      OccursExactly(ps[0].content, lib);
      forall i | 0 < i < |ps| ensures ps[i] == ps[1..][i - 1] {}
      if !Naming(ps[0].content, lib) && FileText(ps, lib).Some? {
        var i :| && 0 <= i < |ps| - 1 && FileText(ps, lib).value == ps[1..][i].content
                 && Naming(ps[1..][i].content, lib)
                 && forall h :: 0 <= h < i ==> !Naming(ps[1..][h].content, lib);
        assert ps[i + 1] == ps[1..][i];
      }
    }
  }

  // The first update of a library that files name leaves the other profiles of the first of those
  // files as they are there, and gives them from then on.
  lemma FileKept(st: Store, names: set<Name>, lib: string, profile: string, x: Profile, i: nat, n: Name)
    requires Texts(st, names) && GoodNames(names) && (lib, profile) in names && NameFree(lib)
    requires GoodProfile(x, lib, profile, names) && Update(st, lib, profile, RenderProfile(x), true).1 != ""
    requires lib !in st.libraries && i < |st.providers| && Naming(st.providers[i].content, lib)
    requires forall h :: 0 <= h < i ==> !Naming(st.providers[h].content, lib)
    requires n in names && n != (lib, profile)
    ensures var st' := Update(st, lib, profile, RenderProfile(x), true).0;
            && lib in st'.dynamic
            && Extract(st'.dynamic[lib], lib, profile) == Block(Named(x, profile))
            && Extract(st'.dynamic[lib], n.0, n.1) == Extract(st.providers[i].content, n.0, n.1)
            && (n.0 == lib ==>
                  (FromDynamic(st', n.0, n.1).Some? <==> Extract(st.providers[i].content, n.0, n.1) != ""))
  {
    hide Naming, GoodText, GoodProfile, Holds, GoodNames, NameFree, Merge, RenderProfile, Named, Block, Update,
         Extract, FileText, Template, PackOf;
    FileTextExactly(st.providers, lib);
    assert FileText(st.providers, lib) == Some(st.providers[i].content);
    assert BaseText(st, lib) == st.providers[i].content;
    UpdateChanges(st, lib, profile, RenderProfile(x));
    NameFreeNonempty(lib);
    GoodMerge(st.providers[i].content, names, lib, profile, x);
    OwnBlock(st.providers[i].content, lib, profile, x, names);
    PackExactly(Update(st, lib, profile, RenderProfile(x), true).0.dynamic[lib], n.0, n.1, DYNAMIC);
  }

  lemma OwnBlock(s: string, lib: string, profile: string, x: Profile, names: set<Name>)
    requires Holds(Merge(s, lib, profile, RenderProfile(x)), (lib, profile)) == Block(Named(x, profile))
    ensures Extract(Merge(s, lib, profile, RenderProfile(x)), lib, profile) == Block(Named(x, profile))
  {
    hide Merge, Extract, RenderProfile, Named, Listing;
    BlockNonempty(Named(x, profile));
  }

  const HEAD := "<" + "?xml version=\"1.0\" encoding=\"UTF-8\"?" + ">" + "\n" + "<dds>\n  " + "<qos_library name=\""
  const TAIL := "\">\n  </qos_library>\n</dds>"

  // A library that no file names starts from an empty one in a document of its own.
  lemma TemplateIs(st: Store, lib: string)
    requires lib !in st.libraries && forall i :: 0 <= i < |st.providers| ==> !Naming(st.providers[i].content, lib)
    ensures BaseText(st, lib) == HEAD + lib + TAIL
  {
    hide Naming, Template, HEAD, TAIL;
    FileTextExactly(st.providers, lib);
    TemplateParts(lib);
  }

  lemma TemplateParts(lib: string)
    ensures Template(lib) == HEAD + lib + TAIL
  {
    hide XML_DECL, DDS_OPEN, DDS_CLOSE, LIB_END, HEAD, TAIL;
    HeadText();
    TailText();
    Rejoined(XML_DECL + DDS_OPEN, "<qos_library name=\"", lib, "\">", "\n  " + LIB_END + DDS_CLOSE);
  }

  lemma HeadText()
    ensures (XML_DECL + DDS_OPEN) + "<qos_library name=\"" == HEAD
  {
    hide XML_DECL, DDS_OPEN;
    DeclText();
    OpenText();
  }

  lemma DeclText()
    ensures XML_DECL == "<" + "?xml version=\"1.0\" encoding=\"UTF-8\"?" + ">" + "\n"
  {
  }

  lemma OpenText()
    ensures DDS_OPEN == "<dds>\n  "
  {
  }

  lemma TailText()
    ensures "\">" + ("\n  " + LIB_END + DDS_CLOSE) == TAIL
  {
    assert DDS_CLOSE == "\n</dds>";
  }

  lemma Rejoined(a: string, b: string, lib: string, c: string, d: string)
    ensures a + (b + lib + c) + d == (a + b) + lib + (c + d)
  {
  }

  // ---------- What the files list ----------

  // The file at a path lists the name now.
  ghost predicate ListsAt(disk: seq<File>, path: string, k: string) {
    exists h :: IsAt(disk, path, h) && Lists(disk[h].content, k)
  }

  lemma ListedAtExactly(disk: seq<File>, path: string, k: string)
    ensures k in ListedAt(disk, path) <==> ListsAt(disk, path, k)
  {
    hide IsAt, Listing, FullNames, Lists;
    FileAtNone(disk, path);
    forall h | IsAt(disk, path, h) ensures 0 <= h < |disk| && FileAt(disk, path) == Some(disk[h]) {
      AtSomething(disk, path, h);
      FileAtIs(disk, path, h);
    }
    if FileAt(disk, path).Some? {
      var h :| IsAt(disk, path, h);
      ListedExactly(disk[h].content, k);
    }
  }

  // The names listed from files are those that the files at the loaded paths list now.
  lemma {:induction false} AllListedExactly(ps: seq<FileProvider>, disk: seq<File>, k: string)
    ensures k in AllListed(ps, disk) <==> exists i :: 0 <= i < |ps| && ListsAt(disk, ps[i].path, k)
  {
    hide ListedAt, ListsAt;
    if ps != [] {
      AllListedExactly(ps[1..], disk, k);
      ListedAtExactly(disk, ps[0].path, k);
      forall i | 0 < i < |ps| ensures ps[i] == ps[1..][i - 1] {}
      if i :| 0 <= i < |ps| - 1 && ListsAt(disk, ps[1..][i].path, k) {
        assert ps[i + 1] == ps[1..][i];
      }
    }
  }
}
