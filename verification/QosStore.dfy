// The QoS store: a cache over dynamic providers over file providers
// (RtpDdsGateway/src/qos_store.cpp, lines 342-491, 499-562 and 714-785).
// A provider is the XML text it was made from: what it gives for lib::profile is that profile's block
// and the blocks it inherits from.
module QosStore {
  import opened Wrappers
  import opened Text
  import opened QosXml
  import opened QosSorting
  import opened QosChain

  const DYNAMIC := "(dynamic)"

  datatype Pack = Pack(blocks: seq<string>, origin: string)

  // mtime: when the file was last written.
  datatype File = File(path: string, content: string, mtime: nat)
  datatype FileProvider = FileProvider(path: string, content: string, profiles: set<string>, mtime: nat)

  datatype Store = Store(
    cache: map<string, Pack>,
    providers: seq<FileProvider>,
    libraries: map<string, string>,
    dynamic: map<string, string>,
    index: set<string>,
    version: nat)

  function Key(lib: string, profile: string): string { lib + SEP + profile }

  function FullNames(pairs: seq<(string, string)>): seq<string> {
    if pairs == [] then [] else [Key(pairs[0].0, pairs[0].1)] + FullNames(pairs[1..])
  }

  function ToSet(names: seq<string>): set<string> { set n | n in names }

  function Listed(content: string): set<string> { ToSet(FullNames(Listing(content))) }

  // What scanning the directory gives: one provider for each readable file, in path order.
  function Load(disk: seq<File>): (r: seq<FileProvider>)
    ensures |r| == |disk|
    ensures forall i :: 0 <= i < |r| ==>
      r[i] == FileProvider(disk[i].path, disk[i].content, Listed(disk[i].content), disk[i].mtime)
  {
    hide Listed;
    if disk == [] then []
    else [FileProvider(disk[0].path, disk[0].content, Listed(disk[0].content), disk[0].mtime)] + Load(disk[1..])
  }

  function PackOf(content: string, lib: string, profile: string, origin: string): Option<Pack> {
    var x := Extract(content, lib, profile);
    if x == "" then None else Some(Pack([x] + Follow(content, lib, x, {(lib, profile)}), origin))
  }

  function FileAt(disk: seq<File>, path: string): Option<File> {
    if disk == [] then None else if disk[0].path == path then Some(disk[0]) else FileAt(disk[1..], path)
  }

  // A file that has changed since is listed again when a name is not among those listed; the
  // provider made from it stays.
  function Refreshed(p: FileProvider, disk: seq<File>, k: string): FileProvider {
    if k in p.profiles then p
    else match FileAt(disk, p.path)
         case None => p
         case Some(f) => if f.mtime == p.mtime then p else p.(profiles := Listed(f.content), mtime := f.mtime)
  }

  function FromFile(p: FileProvider, lib: string, profile: string): Option<Pack> {
    if Key(lib, profile) in p.profiles then PackOf(p.content, lib, profile, p.path) else None
  }

  // The last loaded file that has the profile wins; those passed over on the way are refreshed.
  function Resolve(ps: seq<FileProvider>, disk: seq<File>, lib: string, profile: string)
    : (r: (seq<FileProvider>, Option<Pack>))
    ensures |r.0| == |ps|
    ensures forall i :: 0 <= i < |ps| ==> r.0[i].path == ps[i].path && r.0[i].content == ps[i].content
  {
    hide Key, FromFile, Listed, FileAt;
    if ps == [] then ([], None)
    else
      var n := |ps| - 1;
      var p := Refreshed(ps[n], disk, Key(lib, profile));
      var pack := FromFile(p, lib, profile);
      if pack.Some? then (ps[..n] + [p], pack)
      else
        var (rest, found) := Resolve(ps[..n], disk, lib, profile);
        (rest + [p], found)
  }

  lemma ResolveNone(disk: seq<File>, lib: string, profile: string)
    ensures Resolve([], disk, lib, profile) == ([], None)
  {
  }

  lemma ResolveStep(ps: seq<FileProvider>, disk: seq<File>, lib: string, profile: string)
    requires ps != []
    ensures var n := |ps| - 1;
            var p, rest := Refreshed(ps[n], disk, Key(lib, profile)), Resolve(ps[..n], disk, lib, profile);
            Resolve(ps, disk, lib, profile) ==
            if FromFile(p, lib, profile).Some? then (ps[..n] + [p], FromFile(p, lib, profile))
            else (rest.0 + [p], rest.1)
  {
    hide FromFile, Refreshed, Key;
  }

  // What was found, with more providers behind.
  function Behind(r: (seq<FileProvider>, Option<Pack>), done: seq<FileProvider>): (seq<FileProvider>, Option<Pack>) {
    (r.0 + done, r.1)
  }

  lemma BehindNone(r: (seq<FileProvider>, Option<Pack>))
    ensures Behind(r, []) == r
  {
    assert r.0 + [] == r.0;
  }

  // One step back through the providers.
  lemma ResolveBack(start: seq<FileProvider>, disk: seq<File>, lib: string, profile: string, i: nat,
                    done: seq<FileProvider>)
    requires i < |start|
    requires Resolve(start, disk, lib, profile) == Behind(Resolve(start[..i + 1], disk, lib, profile), done)
    ensures var p := Refreshed(start[i], disk, Key(lib, profile));
            && (start[..i + 1] + done)[i] == start[i] && (start[..i + 1] + done)[i := p] == start[..i] + ([p] + done)
            && if FromFile(p, lib, profile).Some? then
                 Resolve(start, disk, lib, profile) == (start[..i] + ([p] + done), FromFile(p, lib, profile))
               else Resolve(start, disk, lib, profile) == Behind(Resolve(start[..i], disk, lib, profile), [p] + done)
  {
    hide FromFile, Refreshed, Key, Resolve;
    ResolveStep(start[..i + 1], disk, lib, profile);
    assert start[..i + 1][..i] == start[..i];
    var p, rest := Refreshed(start[i], disk, Key(lib, profile)), Resolve(start[..i], disk, lib, profile).0;
    assert start[..i] + [p] + done == start[..i] + ([p] + done);
    assert rest + [p] + done == rest + ([p] + done);
  }

  lemma NothingBefore(start: seq<FileProvider>, done: seq<FileProvider>)
    ensures start[..0] == [] && start[..0] + done == done && Behind(([], None), done) == (done, None)
  {
    assert [] + done == done;
  }

  function Reload(st: Store, disk: seq<File>): Store {
    st.(providers := Load(disk), cache := map[], version := st.version + 1)
  }

  function FromDynamic(st: Store, lib: string, profile: string): Option<Pack> {
    if lib in st.dynamic then PackOf(st.dynamic[lib], lib, profile, DYNAMIC) else None
  }

  // Cache, dynamic provider, files, and files again after a reload.
  function Lookup(st: Store, disk: seq<File>, lib: string, profile: string): (Store, Option<Pack>) {
    var k := Key(lib, profile);
    if k in st.cache then (st, Some(st.cache[k]))
    else if FromDynamic(st, lib, profile).Some? then
      var pack := FromDynamic(st, lib, profile);
      (st.(cache := st.cache[k := pack.value]), pack)
    else
      match Resolve(st.providers, disk, lib, profile)
      case (ps, Some(p)) => (st.(providers := ps, cache := st.cache[k := p]), Some(p))
      case (_, None) =>
        var st' := Reload(st, disk);
        match Resolve(st'.providers, disk, lib, profile)
        case (ps, None) => (st'.(providers := ps), None)
        case (ps, Some(p)) => (st'.(providers := ps, cache := map[k := p], version := st'.version + 1), Some(p))
  }

  // A tag of another element, and the text after it.
  function OtherTag(body: string, rest: string): string { "<" + body + ">" + rest }

  const DECL := "?xml version=\"1.0\" encoding=\"UTF-8\"?"
  const XML_DECL := OtherTag(DECL, "\n")
  const DDS_OPEN := OtherTag("dds", "\n  ")
  const DDS_CLOSE := "\n" + OtherTag("/dds", "")

  function Template(lib: string): string {
    XML_DECL + DDS_OPEN + ("<qos_library name=\"" + lib + "\">") + ("\n  " + LIB_END + DDS_CLOSE)
  }

  // The first file that names the library in this spelling.
  function FileText(ps: seq<FileProvider>, lib: string): Option<string> {
    if ps == [] then None
    else if Occurs(ps[0].content, "<qos_library name=\"" + lib + "\"") then Some(ps[0].content)
    else FileText(ps[1..], lib)
  }

  function BaseText(st: Store, lib: string): string {
    if lib in st.libraries then st.libraries[lib]
    else match FileText(st.providers, lib) case Some(s) => s case None => Template(lib)
  }

  // accepted: whether a provider can be made from the merged text.
  function Update(st: Store, lib: string, profile: string, xml: string, accepted: bool): (Store, string) {
    var merged := Merge(BaseText(st, lib), lib, profile, xml);
    if merged == "" || !accepted then (st, "")
    else
      var k := Key(lib, profile);
      (st.(libraries := st.libraries[lib := merged], dynamic := st.dynamic[lib := merged], index := st.index + {k},
           cache := st.cache - {k}), k)
  }

  // What the file at a path lists now; nothing when it cannot be read.
  function ListedAt(disk: seq<File>, path: string): seq<string> {
    match FileAt(disk, path) case None => [] case Some(f) => FullNames(Listing(f.content))
  }

  function AllListed(ps: seq<FileProvider>, disk: seq<File>): seq<string> {
    if ps == [] then [] else ListedAt(disk, ps[0].path) + AllListed(ps[1..], disk)
  }

  lemma {:induction false} ListedAppend(ps: seq<FileProvider>, p: FileProvider, disk: seq<File>)
    ensures AllListed(ps + [p], disk) == AllListed(ps, disk) + ListedAt(disk, p.path)
  {
    hide ListedAt;
    if ps == [] {
      assert ps + [p] == [p] && AllListed([p], disk) == ListedAt(disk, p.path) + AllListed([], disk);
    } else {
      assert (ps + [p])[1..] == ps[1..] + [p];
      ListedAppend(ps[1..], p, disk);
    }
  }

  class QosStore {
    var cache: map<string, Pack>
    var providers: seq<FileProvider>
    var libraries: map<string, string>
    var dynamic: map<string, string>
    var index: set<string>
    var version: nat
    const builtin: seq<string>

    function Contents(): Store
      reads this
    {
      Store(cache, providers, libraries, dynamic, index, version)
    }

    constructor (disk: seq<File>, builtinNames: seq<string>)
      ensures Contents() == Store(map[], Load(disk), map[], map[], {}, 0) && builtin == builtinNames
    {
      cache, providers, libraries, dynamic, index, version := map[], Load(disk), map[], map[], {}, 0;
      builtin := builtinNames;
    }

    method ReloadAll(disk: seq<File>)
      modifies this
      ensures Contents() == Reload(old(Contents()), disk)
    {
      providers := Load(disk);
      cache := map[];
      version := version + 1;
    }

    method ResolveFromProviders(lib: string, profile: string, disk: seq<File>) returns (r: Option<Pack>)
      modifies this`providers
      ensures (providers, r) == Resolve(old(providers), disk, lib, profile)
    {
      hide Key, FromFile, Refreshed, Resolve, Behind;
      ghost var start, done := providers, [];
      var k, i := Key(lib, profile), |providers|;
      BehindNone(Resolve(start, disk, lib, profile));
      assert start[..i] == start && start == start[..i] + done;
      while i > 0
        invariant 0 <= i <= |start| && providers == start[..i] + done
        invariant Resolve(start, disk, lib, profile) == Behind(Resolve(start[..i], disk, lib, profile), done)
      {
        i := i - 1;
        ResolveBack(start, disk, lib, profile, i, done);
        var p := Refreshed(providers[i], disk, k);
        providers := providers[i := p];
        done := [p] + done;
        var found := FromFile(p, lib, profile);
        if found.Some? { return found; }
      }
      ResolveNone(disk, lib, profile);
      NothingBefore(start, done);
      return None;
    }

    method FindOrReload(lib: string, profile: string, disk: seq<File>) returns (r: Option<Pack>)
      modifies this
      ensures (Contents(), r) == Lookup(old(Contents()), disk, lib, profile)
    {
      hide PackOf, Resolve, Key;
      var k := Key(lib, profile);
      if k in cache { return Some(cache[k]); }
      if lib in dynamic {
        r := PackOf(dynamic[lib], lib, profile, DYNAMIC);
        if r.Some? {
          cache := cache[k := r.value];
          return;
        }
      }
      r := ResolveFromProviders(lib, profile, disk);
      if r.Some? {
        cache := cache[k := r.value];
        return;
      }
      ReloadAll(disk);
      r := ResolveFromProviders(lib, profile, disk);
      if r.Some? {
        cache := map[k := r.value];
        version := version + 1;
      }
    }

    method AddOrUpdateProfile(lib: string, profile: string, xml: string, accepted: bool) returns (name: string)
      modifies this
      ensures (Contents(), name) == Update(old(Contents()), lib, profile, xml, accepted)
    {
      hide Merge, Occurs, Template, Key;
      var base := "";
      if lib in libraries {
        base := libraries[lib];
      } else {
        var i, found := 0, false;
        while i < |providers| && !found
          invariant i <= |providers|
          invariant !found ==> base == "" && FileText(providers, lib) == FileText(providers[i..], lib)
          invariant found ==> FileText(providers, lib) == Some(base)
        {
          if Occurs(providers[i].content, "<qos_library name=\"" + lib + "\"") {
            base, found := providers[i].content, true;
          }
          assert providers[i..][1..] == providers[i + 1..];
          i := i + 1;
        }
        if !found { base := Template(lib); }
      }
      var merged := MergeProfileIntoLibrary(base, lib, profile, xml);
      if merged == "" { return ""; }
      if !accepted { return ""; }
      libraries := libraries[lib := merged];
      dynamic := dynamic[lib := merged];
      name := Key(lib, profile);
      index := index + {name};
      cache := cache - {name};
    }

    // The index is an unordered set: order says how it is walked. Every file is read again.
    method ListProfiles(order: seq<string>, includeBuiltin: bool, disk: seq<File>) returns (out: seq<string>)
      requires ToSet(order) == index
      ensures StrictlySorted(out)
      ensures forall n :: n in out <==>
              n in index || n in AllListed(providers, disk) || (includeBuiltin && n in builtin)
    {
      hide Listing, FullNames, StrictlySorted, SortUnique;
      var all := order;
      for i := 0 to |providers|
        invariant all == order + AllListed(providers[..i], disk)
      {
        var file := FileAt(disk, providers[i].path);
        if file.Some? {
          var pairs := ParseProfiles(file.value.content);
          all := all + FullNames(pairs);
        }
        ListedAppend(providers[..i], providers[i], disk);
        assert providers[..i] + [providers[i]] == providers[..i + 1];
      }
      assert providers[..|providers|] == providers;
      if includeBuiltin { all := all + builtin; }
      out := SortUnique(all);
      SortedUnique(all);
      assert forall n :: n in order <==> n in index;
    }
  }
}
