// Dynamic profiles always win: what a lookup returns after any run of lookups, updates and reloads,
// and when it is what the provider would give now (RtpDdsGateway/src/qos_store.cpp, lines 408-491 and 714-785).
module QosStoreRuns {
  import opened Wrappers
  import opened QosXml
  import opened QosDoc
  import opened QosNaming
  import opened QosMerge
  import opened QosLaws
  import opened QosTags
  import opened QosChain
  import opened QosStore
  import opened QosStoreLaws

  datatype Op =
    | Ask(lib: string, profile: string, disk: seq<File>)
    | Write(lib: string, profile: string, x: Profile, accepted: bool)
    | Rescan(disk: seq<File>)

  function Apply(st: Store, op: Op): (Store, string) {
    match op
    case Ask(lib, profile, disk) => (Lookup(st, disk, lib, profile).0, "")
    case Write(lib, profile, x, accepted) => Update(st, lib, profile, RenderProfile(x), accepted)
    case Rescan(disk) => (Reload(st, disk), "")
  }

  function Initial(disk: seq<File>): Store { Store(map[], Load(disk), map[], map[], {}, 0) }

  // Calls are serialised by the manager, so a run is a sequence of whole operations.
  function Run(disk: seq<File>, ops: seq<Op>): Store {
    if ops == [] then Initial(disk) else Apply(Run(disk, ops[..|ops| - 1]), ops[|ops| - 1]).0
  }

  // The text each profile was last updated to.
  function Written(disk: seq<File>, ops: seq<Op>): map<Name, string> {
    if ops == [] then map[]
    else
      var before, op := ops[..|ops| - 1], ops[|ops| - 1];
      var w := Written(disk, before);
      if op.Write? && Apply(Run(disk, before), op).1 != "" then
        w[(op.lib, op.profile) := Block(Named(op.x, op.profile))]
      else w
  }

  // The library text from which each profile was last put into the cache.
  function Sources(disk: seq<File>, ops: seq<Op>): map<Name, string> {
    if ops == [] then map[]
    else Sourced(Run(disk, ops[..|ops| - 1]), Sources(disk, ops[..|ops| - 1]), ops[|ops| - 1])
  }

  function Sourced(st: Store, src: map<Name, string>, op: Op): map<Name, string> {
    if op.Ask? && Key(op.lib, op.profile) !in st.cache && FromDynamic(st, op.lib, op.profile).Some?
    then src[(op.lib, op.profile) := st.dynamic[op.lib]] else src
  }

  ghost predicate GoodDisk(disk: seq<File>, names: set<Name>) {
    forall i :: 0 <= i < |disk| ==> GoodText(disk[i].content, names)
  }

  ghost predicate GoodOp(op: Op, names: set<Name>) {
    match op
    case Ask(lib, profile, disk) => (lib, profile) in names && GoodDisk(disk, names)
    case Write(lib, profile, x, _) => (lib, profile) in names && NameFree(lib) && GoodProfile(x, lib, profile, names)
    case Rescan(disk) => GoodDisk(disk, names)
  }

  predicate GoodNames(names: set<Name>) {
    forall n :: n in names ==> PlainLib(n.0) && QuoteFree(n.0)
  }

  // names: whatever is asked for, written or inherited from.
  ghost predicate GoodRun(disk: seq<File>, ops: seq<Op>, names: set<Name>) {
    GoodNames(names) && GoodDisk(disk, names) && forall i :: 0 <= i < |ops| ==> GoodOp(ops[i], names)
  }

  // ---------- The invariant ----------

  // What the provider made of a library's text gives.
  function Given(text: string, n: Name): Pack {
    Pack([Holds(text, n)] + Follow(text, n.0, Holds(text, n), {n}), DYNAMIC)
  }

  // Providers and libraries hold the same texts, which the scanners read as intended.
  ghost predicate Texts(st: Store, names: set<Name>) {
    && st.dynamic == st.libraries
    && (forall lib :: lib in st.libraries ==> GoodText(st.libraries[lib], names))
    && (forall i :: 0 <= i < |st.providers| ==> GoodText(st.providers[i].content, names))
  }

  // Only what has been written into this library can differ.
  predicate Untouched(s: string, t: string, lib: string, w: map<Name, string>, names: set<Name>) {
    forall m :: m in names && (m.0 != lib || m !in w) ==> Holds(s, m) == Holds(t, m)
  }

  // The entry is what the library gave when it was cached.
  ghost predicate Cached(st: Store, w: map<Name, string>, src: map<Name, string>, n: Name, names: set<Name>)
    requires n in w && n.0 in st.libraries && Key(n.0, n.1) in st.cache
  {
    && n in src && GoodText(src[n], names) && Holds(src[n], n) == w[n]
    && st.cache[Key(n.0, n.1)] == Given(src[n], n)
    && Untouched(src[n], st.libraries[n.0], n.0, w, names)
  }

  // What was written last is what the library holds.
  ghost predicate Fresh(st: Store, w: map<Name, string>, src: map<Name, string>, n: Name, names: set<Name>)
    requires n in w
  {
    && w[n] != "" && n.0 in st.libraries && Holds(st.libraries[n.0], n) == w[n]
    && (Key(n.0, n.1) in st.cache ==> Cached(st, w, src, n, names))
  }

  ghost predicate Inv(st: Store, w: map<Name, string>, src: map<Name, string>, names: set<Name>) {
    && Texts(st, names)
    && w.Keys <= names
    && (forall n :: n in w ==> Fresh(st, w, src, n, names))
    && st.index == set n | n in w :: Key(n.0, n.1)
  }

  lemma {:induction false} FileTextGood(ps: seq<FileProvider>, lib: string, names: set<Name>)
    requires forall i :: 0 <= i < |ps| ==> GoodText(ps[i].content, names)
    ensures FileText(ps, lib).Some? ==> GoodText(FileText(ps, lib).value, names)
  {
    hide GoodText;
    if ps != [] { FileTextGood(ps[1..], lib, names); }
  }

  lemma BaseGood(st: Store, lib: string, names: set<Name>)
    requires Texts(st, names) && NameFree(lib) && GoodNames(names)
    ensures GoodText(BaseText(st, lib), names)
  {
    hide GoodText, FileText, Template, PlainLib, QuoteFree, NameFree;
    TemplateGood(lib, names);
    FileTextGood(st.providers, lib, names);
  }

  lemma LoadGood(disk: seq<File>, names: set<Name>)
    requires GoodDisk(disk, names)
    ensures forall i :: 0 <= i < |disk| ==> GoodText(Load(disk)[i].content, names)
  {
    hide GoodText;
  }

  lemma GivenPack(text: string, n: Name)
    requires Holds(text, n) != ""
    ensures PackOf(text, n.0, n.1, DYNAMIC) == Some(Given(text, n))
  {
    hide Extract, Listing, Follow;
    assert n == (n.0, n.1);
  }

  // ---------- Lookups ----------

  // What has been written is found, and nothing else changes.
  lemma FreshFound(st: Store, w: map<Name, string>, src: map<Name, string>, n: Name, names: set<Name>, disk: seq<File>)
    requires n in w && Fresh(st, w, src, n, names) && st.dynamic == st.libraries
    ensures FromDynamic(st, n.0, n.1) == Some(Given(st.libraries[n.0], n))
    ensures var k := Key(n.0, n.1);
            Lookup(st, disk, n.0, n.1) ==
            if k in st.cache then (st, Some(st.cache[k]))
            else (st.(cache := st.cache[k := Given(st.libraries[n.0], n)]), Some(Given(st.libraries[n.0], n)))
  {
    hide Key, Holds, PackOf, Given, Cached;
    GivenPack(st.libraries[n.0], n);
  }

  // A lookup leaves the dynamic side alone, and of the cache it fills at most the entry asked for.
  lemma LookupChanges(st: Store, disk: seq<File>, lib: string, profile: string)
    ensures var k, st' := Key(lib, profile), Lookup(st, disk, lib, profile).0;
            && st'.libraries == st.libraries && st'.dynamic == st.dynamic && st'.index == st.index
            && forall c :: c in st'.cache && c != k ==> c in st.cache && st'.cache[c] == st.cache[c]
  {
    hide Key, Resolve, FromDynamic, Load;
  }

  // The providers are the ones there were, or those loaded anew, some of them refreshed.
  lemma LookupProviders(st: Store, disk: seq<File>, lib: string, profile: string)
    ensures var ps := Lookup(st, disk, lib, profile).0.providers;
            || ps == st.providers
            || ps == Resolve(st.providers, disk, lib, profile).0
            || ps == Resolve(Load(disk), disk, lib, profile).0
  {
    hide Key, Resolve, FromDynamic, Load;
  }

  lemma ResolveTexts(ps: seq<FileProvider>, names: set<Name>, disk: seq<File>, lib: string, profile: string)
    requires forall i :: 0 <= i < |ps| ==> GoodText(ps[i].content, names)
    ensures var qs := Resolve(ps, disk, lib, profile).0; forall i :: 0 <= i < |qs| ==> GoodText(qs[i].content, names)
  {
    hide GoodText, Resolve;
  }

  lemma LookupTexts(st: Store, names: set<Name>, disk: seq<File>, lib: string, profile: string)
    requires Texts(st, names) && GoodDisk(disk, names)
    ensures Texts(Lookup(st, disk, lib, profile).0, names)
  {
    hide GoodText, Lookup, Key, Resolve;
    LookupChanges(st, disk, lib, profile);
    LookupProviders(st, disk, lib, profile);
    LoadGood(disk, names);
    ResolveTexts(st.providers, names, disk, lib, profile);
    ResolveTexts(Load(disk), names, disk, lib, profile);
  }

  lemma AskOwn(st: Store, w: map<Name, string>, src: map<Name, string>, n: Name, names: set<Name>, disk: seq<File>)
    requires Texts(st, names) && n in w && Fresh(st, w, src, n, names)
    ensures var st', src' := Lookup(st, disk, n.0, n.1).0, Sourced(st, src, Ask(n.0, n.1, disk));
            Fresh(st', w, src', n, names)
  {
    hide GoodText, Holds, Key, Given, Lookup, FromDynamic;
    FreshFound(st, w, src, n, names, disk);
    assert n == (n.0, n.1);
  }

  lemma AskOther(st: Store, w: map<Name, string>, src: map<Name, string>, n: Name, names: set<Name>, a: Name,
                 disk: seq<File>)
    requires GoodNames(names) && n in names && a in names && n != a && n in w && Fresh(st, w, src, n, names)
    ensures var st', src' := Lookup(st, disk, a.0, a.1).0, Sourced(st, src, Ask(a.0, a.1, disk));
            Fresh(st', w, src', n, names)
  {
    hide GoodText, Holds, Key, Given, Lookup, FromDynamic, PlainLib, QuoteFree, Untouched;
    LookupChanges(st, disk, a.0, a.1);
    assert n == (n.0, n.1) && a == (a.0, a.1);
    if Key(n.0, n.1) == Key(a.0, a.1) { KeyInjective(n.0, n.1, a.0, a.1); }
  }

  lemma AskKeeps(st: Store, w: map<Name, string>, src: map<Name, string>, names: set<Name>,
                 lib: string, profile: string, disk: seq<File>)
    requires Inv(st, w, src, names) && GoodNames(names) && (lib, profile) in names && GoodDisk(disk, names)
    ensures Inv(Lookup(st, disk, lib, profile).0, w, Sourced(st, src, Ask(lib, profile, disk)), names)
  {
    hide Texts, GoodDisk, GoodNames, Fresh, Lookup, Sourced, Key;
    LookupTexts(st, names, disk, lib, profile);
    LookupChanges(st, disk, lib, profile);
    forall n | n in w
      ensures Fresh(Lookup(st, disk, lib, profile).0, w, Sourced(st, src, Ask(lib, profile, disk)), n, names)
    {
      if n == (lib, profile) {
        AskOwn(st, w, src, n, names, disk);
      } else {
        AskOther(st, w, src, n, names, (lib, profile), disk);
      }
    }
  }

  // ---------- Updates ----------

  lemma UpdateChanges(st: Store, lib: string, profile: string, xml: string)
    requires Update(st, lib, profile, xml, true).1 != ""
    ensures var k, st' := Key(lib, profile), Update(st, lib, profile, xml, true).0;
            var m := Merge(BaseText(st, lib), lib, profile, xml);
            && m != "" && st'.libraries == st.libraries[lib := m] && st'.dynamic == st.dynamic[lib := m]
            && st'.index == st.index + {k} && st'.cache == st.cache - {k} && st'.providers == st.providers
  {
    hide Merge, BaseText, Key;
  }

  lemma BaseKnown(st: Store, lib: string)
    requires lib in st.libraries
    ensures BaseText(st, lib) == st.libraries[lib]
  {
  }

  // The merge behind an accepted update.
  lemma UpdateMerges(st: Store, names: set<Name>, lib: string, profile: string, x: Profile)
    requires Texts(st, names) && GoodNames(names) && (lib, profile) in names
    requires NameFree(lib) && GoodProfile(x, lib, profile, names)
    requires Update(st, lib, profile, RenderProfile(x), true).1 != ""
    ensures var s := BaseText(st, lib);
            var m := Merge(s, lib, profile, RenderProfile(x));
            && GoodText(m, names)
            && Holds(m, (lib, profile)) == Block(Named(x, profile))
            && forall n :: n in names && n != (lib, profile) ==> Holds(m, n) == Holds(s, n)
  {
    hide GoodText, GoodProfile, Holds, GoodNames, NameFree, BaseText, Merge, RenderProfile, Named, Block, Update,
         Extract;
    BaseGood(st, lib, names);
    NameFreeNonempty(lib);
    UpdateChanges(st, lib, profile, RenderProfile(x));
    GoodMerge(BaseText(st, lib), names, lib, profile, x);
  }

  // What one merge into a library's text does to what is known of a name.
  lemma MergeOwn(st: Store, w: map<Name, string>, src: map<Name, string>, names: set<Name>, n: Name, st': Store,
                 text: string)
    requires n.0 in st'.libraries && Holds(st'.libraries[n.0], n) == text != "" && Key(n.0, n.1) !in st'.cache
    ensures Fresh(st', w[n := text], src, n, names)
  {
    hide Holds, Key, Cached;
  }

  lemma MergeOther(st: Store, w: map<Name, string>, src: map<Name, string>, names: set<Name>, n: Name, a: Name,
                   st': Store, text: string)
    requires GoodNames(names) && w.Keys <= names && n in w && a in names && n != a && Fresh(st, w, src, n, names)
    requires st'.cache == st.cache - {Key(a.0, a.1)} && a.0 in st'.libraries
    requires st'.libraries == st.libraries[a.0 := st'.libraries[a.0]]
    requires a.0 in st.libraries ==>
               forall m :: m in names && m != a ==> Holds(st'.libraries[a.0], m) == Holds(st.libraries[a.0], m)
    ensures Fresh(st', w[a := text], src, n, names)
  {
    hide GoodText, Holds, Key, Given, PlainLib, QuoteFree;
    var w' := w[a := text];
    assert n == (n.0, n.1) && a == (a.0, a.1);
    if Key(n.0, n.1) in st'.cache {
      assert Untouched(src[n], st'.libraries[n.0], n.0, w', names);
    }
  }

  lemma WriteKeeps(st: Store, w: map<Name, string>, src: map<Name, string>, names: set<Name>,
                   lib: string, profile: string, x: Profile)
    requires Inv(st, w, src, names) && GoodNames(names) && (lib, profile) in names
    requires NameFree(lib) && GoodProfile(x, lib, profile, names)
    requires Update(st, lib, profile, RenderProfile(x), true).1 != ""
    ensures Inv(Update(st, lib, profile, RenderProfile(x), true).0, w[(lib, profile) := Block(Named(x, profile))],
            src, names)
  {
    var a, text := (lib, profile), Block(Named(x, profile));
    var w', st' := w[a := text], Update(st, lib, profile, RenderProfile(x), true).0;
    hide GoodText, GoodProfile, Holds, Fresh, Key, GoodNames, NameFree, RenderProfile, Named, Block, Update, Merge,
         BaseText;
    UpdateMerges(st, names, lib, profile, x);
    UpdateChanges(st, lib, profile, RenderProfile(x));
    BlockNonempty(Named(x, profile));
    if lib in st.libraries { BaseKnown(st, lib); }
    forall n | n in w' ensures Fresh(st', w', src, n, names) {
      if n == a { MergeOwn(st, w, src, names, n, st', text); } else { MergeOther(st, w, src, names, n, a, st', text); }
    }
    IndexGrows(w, a, text);
  }

  lemma BlockNonempty(p: Profile)
    ensures Block(p) != ""
  {
    hide Open;
  }

  lemma IndexGrows(w: map<Name, string>, n: Name, text: string)
    ensures (set m | m in w[n := text] :: Key(m.0, m.1)) == (set m | m in w :: Key(m.0, m.1)) + {Key(n.0, n.1)}
  {
    hide Key;
    forall m | m in w ensures m in w[n := text] {}
  }

  // ---------- Runs ----------

  lemma RescanKeeps(st: Store, w: map<Name, string>, src: map<Name, string>, names: set<Name>, disk: seq<File>)
    requires Inv(st, w, src, names) && GoodDisk(disk, names)
    ensures Inv(Reload(st, disk), w, src, names)
  {
    hide GoodText, Holds, Key, GoodDisk, Cached;
    LoadGood(disk, names);
  }

  lemma StartInv(disk: seq<File>, names: set<Name>)
    requires GoodDisk(disk, names)
    ensures Inv(Initial(disk), map[], map[], names)
  {
    hide GoodText, GoodDisk;
    LoadGood(disk, names);
  }

  lemma {:induction false} RunInv(disk: seq<File>, ops: seq<Op>, names: set<Name>)
    requires GoodRun(disk, ops, names)
    ensures Inv(Run(disk, ops), Written(disk, ops), Sources(disk, ops), names)
  {
    hide Inv, GoodNames, GoodDisk, GoodProfile, Lookup, Update, Reload, NameFree, Key, Block, RenderProfile, Named,
         FromDynamic;
    if ops == [] {
      StartInv(disk, names);
    } else {
      var before, op := ops[..|ops| - 1], ops[|ops| - 1];
      RunInv(disk, before, names);
      var st, w, src := Run(disk, before), Written(disk, before), Sources(disk, before);
      match op
      case Ask(lib, profile, d) => AskKeeps(st, w, src, names, lib, profile, d);
      case Rescan(d) => RescanKeeps(st, w, src, names, d);
      case Write(lib, profile, x, accepted) =>
        UpdateRefused(st, lib, profile, RenderProfile(x), accepted);
        if Apply(st, op).1 != "" { WriteKeeps(st, w, src, names, lib, profile, x); }
    }
  }

  // ---------- What a lookup returns ----------

  // No profile that n inherited from within its library has been updated to another text since n was cached.
  predicate UpToDate(st: Store, w: map<Name, string>, src: map<Name, string>, n: Name)
    requires n in w
  {
    Key(n.0, n.1) in st.cache && n in src ==>
      forall m :: m in Members(src[n], n.0, w[n], {n}) && m.0 == n.0 && m in w ==> w[m] == Holds(src[n], m)
  }

  // A cached entry is what the library's provider would give now exactly when it is up to date.
  lemma CachedExactly(st: Store, w: map<Name, string>, src: map<Name, string>, names: set<Name>, n: Name)
    requires Inv(st, w, src, names) && n in w && Key(n.0, n.1) in st.cache
    ensures st.cache[Key(n.0, n.1)] == Given(st.libraries[n.0], n) <==> UpToDate(st, w, src, n)
  {
    var s, t, x := src[n], st.libraries[n.0], w[n];
    assert Fresh(st, w, src, n, names);
    assert Enclosed(s, names) && Holds(s, n) == x == Holds(t, n);
    hide Texts, GoodText, Holds, Key, Follow, Members, BaseOf, Extract;
    FollowSame(s, t, n.0, x, {n});
    FirstNamed(s, n, names);
    MembersNamed(s, names, n.0, x, {n});
    assert Given(s, n) == Given(t, n) <==> Follow(s, n.0, x, {n}) == Follow(t, n.0, x, {n}) by {
      assert ([x] + Follow(s, n.0, x, {n}))[1..] == Follow(s, n.0, x, {n});
      assert ([x] + Follow(t, n.0, x, {n}))[1..] == Follow(t, n.0, x, {n});
    }
    forall m | m in Members(s, n.0, x, {n})
      ensures Holds(s, m) == Holds(t, m) <==> (m.0 == n.0 && m in w ==> w[m] == Holds(s, m))
    {
      if m.0 == n.0 && m in w { assert Fresh(st, w, src, m, names); }
    }
  }

  lemma FirstNamed(s: string, n: Name, names: set<Name>)
    requires Enclosed(s, names) && n in names && Holds(s, n) != ""
    ensures match BaseOf(n.0, Holds(s, n)) case None => true case Some(b) => b in names
  {
    hide BaseOf, Extract, Listing;
  }

  // After any run, a lookup by any indexed name gives, as its dynamic provider did, the text last
  // written under it and what that inherited, whatever the files and the cache hold; and it gives what
  // the provider would give now exactly when no profile inherited from has been updated since.
  lemma DynamicWins(disk: seq<File>, ops: seq<Op>, names: set<Name>, name: string, now: seq<File>)
    requires GoodRun(disk, ops, names) && name in Run(disk, ops).index
    ensures var st, w, src, n := Run(disk, ops), Written(disk, ops), Sources(disk, ops), Split(name);
            && n in w && Key(n.0, n.1) == name && n.0 in st.libraries
            && var found := Lookup(st, now, n.0, n.1).1;
            && found.Some? && found.value.origin == DYNAMIC && |found.value.blocks| > 0 && found.value.blocks[0] == w[n]
            && (found == FromDynamic(st, n.0, n.1) <==> UpToDate(st, w, src, n))
  {
    RunInv(disk, ops, names);
    hide Texts, GoodDisk, GoodOp, Lookup, Run, Written, Sources, Key, Split, PlainLib, QuoteFree, Holds, Follow,
         Members, FromDynamic;
    var st, w, src := Run(disk, ops), Written(disk, ops), Sources(disk, ops);
    var n :| n in w && Key(n.0, n.1) == name;
    SplitKey(n.0, n.1);
    assert n == (n.0, n.1) && n in names;
    assert st.dynamic == st.libraries by { SameTexts(st, names); }
    assert Fresh(st, w, src, n, names);
    FreshFound(st, w, src, n, names, now);
    if Key(n.0, n.1) in st.cache { CachedExactly(st, w, src, names, n); }
  }

  lemma SameTexts(st: Store, names: set<Name>)
    requires Texts(st, names)
    ensures st.dynamic == st.libraries
  {
    hide GoodText;
  }
}
