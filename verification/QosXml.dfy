// The scanners over QoS XML text (RtpDdsGateway/src/qos_xml_helpers.cpp, lines 292-396 and 464-615).
// Each function reads the text from the front; each method is the original's index-driven loop.
module QosXml {
  import opened Wrappers
  import opened Text

  const LIB := "<qos_library"
  const LIB_END := "</qos_library>"
  const PROF := "<qos_profile"
  const PROF_END := "</qos_profile>"

  // The first attribute whose text ends in name=: absent, malformed, or the bounds of its value.
  datatype NameAttr = Absent | Malformed | Value(from: nat, to: nat)

  function FindName(opening: string): (r: NameAttr)
    ensures r.Value? ==> r.from <= r.to < |opening|
  {
    match Find(opening, "name=")
    case None => Absent
    case Some(n) =>
      match FindQuote(opening[n + 5..])
      case None => Malformed
      case Some(k) =>
        var q := n + 5 + k;
        match Find(opening[q + 1..], [opening[q]])
        case None => Malformed
        case Some(e) => Value(q + 1, q + 1 + e)
  }

  function NameOf(opening: string): string {
    match FindName(opening) case Value(a, b) => opening[a..b] case _ => ""
  }

  // Does the tag contain name="x" or name='x' anywhere?
  predicate Mentions(opening: string, x: string) {
    Occurs(opening, "name=\"" + x + "\"") || Occurs(opening, "name='" + x + "'")
  }

  datatype Span = Span(at: nat, end: nat)

  // The next opening tag: where the marker starts, and where its '>' is.
  function NextTag(s: string, marker: string): (r: Option<Span>)
    requires marker == LIB || marker == PROF
    ensures r.Some? ==> r.value.at < r.value.end < |s| && s[r.value.end] == '>'
  {
    match Find(s, marker)
    case None => None
    case Some(p) =>
      match FindFrom(s, ">", p)
      case None => None
      case Some(e) =>
        TagEnds(s, marker, p, e);
        Some(Span(p, e))
  }

  lemma TagEnds(s: string, marker: string, p: nat, e: nat)
    requires marker != "" && marker[0] == '<'
    requires Find(s, marker) == Some(p) && FindFrom(s, ">", p) == Some(e)
    ensures p < e && s[e] == '>' && MatchAt(s, marker, p)
  {
    hide Find;
    FindSpec(s, marker);
    FindSpec(s[p..], ">");
    assert s[p] == s[p..p + |marker|][0];
    assert s[e] == s[p..][e - p..e - p + 1][0];
  }

  // The next closing marker after an opening tag that ends at e.
  function NextClose(s: string, e: nat, marker: string): (r: Option<nat>)
    requires e < |s| && s[e] == '>' && (marker == LIB_END || marker == PROF_END)
    ensures r.Some? ==> e < r.value && r.value + |marker| <= |s|
  {
    FindSpec(s[e..], marker);
    FindFrom(s, marker, e)
  }

  // ---------- Listing ----------

  function ProfileNames(block: string): seq<string>
    decreases |block|
  {
    match NextTag(block, PROF)
    case None => []
    case Some(t) =>
      var name := NameOf(block[t.at..t.end + 1]);
      (if name == "" then [] else [name]) + ProfileNames(block[t.end..])
  }

  function Pairs(lib: string, names: seq<string>): (r: seq<(string, string)>)
    ensures |r| == |names| && forall i :: 0 <= i < |r| ==> r[i] == (lib, names[i])
  {
    if names == [] then [] else [(lib, names[0])] + Pairs(lib, names[1..])
  }

  function Listing(s: string): seq<(string, string)>
    decreases |s|
  {
    match NextTag(s, LIB)
    case None => []
    case Some(t) =>
      var name := NameOf(s[t.at..t.end + 1]);
      if name == "" then Listing(s[t.end + 1..])
      else
        match NextClose(s, t.end, LIB_END)
        case None => []
        case Some(c) => Pairs(name, ProfileNames(s[t.end + 1..c])) + Listing(s[t.end + 1..])
  }

  // ---------- Extraction ----------

  function ExtractFromBlock(block: string, profile: string): Option<string>
    decreases |block|
  {
    match NextTag(block, PROF)
    case None => None
    case Some(t) =>
      if Mentions(block[t.at..t.end + 1], profile) then
        match NextClose(block, t.end, PROF_END)
        case None => None
        case Some(c) => Some(block[t.at..c + |PROF_END|])
      else ExtractFromBlock(block[t.end..], profile)
  }

  function Extract(s: string, lib: string, profile: string): string
    decreases |s|
  {
    match NextTag(s, LIB)
    case None => ""
    case Some(t) =>
      if Mentions(s[t.at..t.end + 1], lib) then
        match NextClose(s, t.end, LIB_END)
        case None => ""
        case Some(c) =>
          match ExtractFromBlock(s[t.end + 1..c], profile)
          case Some(x) => x
          case None => Extract(s[t.end + 1..], lib, profile)
      else Extract(s[t.end + 1..], lib, profile)
  }

  // ---------- Merging ----------

  // Overwrites the value of the name attribute, or adds one. A malformed attribute stays as it is.
  function RenameOpening(opening: string, profile: string): string
    requires |opening| >= |PROF|
  {
    match FindName(opening)
    case Absent => opening[..|PROF|] + " name=\"" + profile + "\"" + opening[|PROF|..]
    case Malformed => opening
    case Value(a, b) => opening[..a] + profile + opening[b..]
  }

  lemma ProfNoGt(i: nat)
    requires i < |PROF|
    ensures PROF[i] != '>'
  {
  }

  lemma InsideSlice(s: string, at: nat, m: string, i: nat)
    requires at + |m| <= |s| && s[at..at + |m|] == m && i < |m|
    ensures s[at + i] == m[i]
  {
  }

  lemma TagLength(s: string, t: Span)
    requires NextTag(s, PROF) == Some(t)
    ensures t.at + |PROF| <= t.end
  {
    TagEnds(s, PROF, t.at, t.end);
    hide Find;
    assert t.at + |PROF| <= |s| && s[t.at..t.at + |PROF|] == PROF;
    forall k | t.at <= k < t.at + |PROF| ensures s[k] != '>' {
      ProfNoGt(k - t.at);
      InsideSlice(s, t.at, PROF, k - t.at);
    }
  }

  function Renamed(x: string, profile: string): Option<string> {
    match NextTag(x, PROF)
    case None => None
    case Some(t) =>
      TagLength(x, t);
      Some(x[..t.at] + RenameOpening(x[t.at..t.end + 1], profile) + x[t.end + 1..])
  }

  function ShiftSpan(o: Option<Span>, n: nat): Option<Span> {
    match o case None => None case Some(t) => Some(Span(t.at + n, t.end + n))
  }

  // The inside of the first properly closed library of that name.
  function FindLibrary(s: string, lib: string): (r: Option<Span>)
    ensures r.Some? ==> r.value.at <= r.value.end <= |s|
    decreases |s|
  {
    match NextTag(s, LIB)
    case None => None
    case Some(t) =>
      var name := NameOf(s[t.at..t.end + 1]);
      if name == "" || name != lib then ShiftSpan(FindLibrary(s[t.end + 1..], lib), t.end + 1)
      else
        match NextClose(s, t.end, LIB_END)
        case None => ShiftSpan(FindLibrary(s[t.end + 1..], lib), t.end + 1)
        case Some(c) => Some(Span(t.end + 1, c))
  }

  // The first profile of that name; without a closing tag it counts as absent.
  function FindProfile(block: string, profile: string): (r: Option<Span>)
    ensures r.Some? ==> r.value.at <= r.value.end <= |block|
    decreases |block|
  {
    match NextTag(block, PROF)
    case None => None
    case Some(t) =>
      if NameOf(block[t.at..t.end + 1]) == profile then
        match NextClose(block, t.end, PROF_END)
        case None => None
        case Some(c) => Some(Span(t.at, c + |PROF_END|))
      else ShiftSpan(FindProfile(block[t.end + 1..], profile), t.end + 1)
  }

  // A profile's text in place of what stood between two positions.
  function Spliced(s: string, at: nat, end: nat, y: string): string
    requires at <= end <= |s|
  {
    s[..at] + "  " + y + "\n" + s[end..]
  }

  // The empty string reports failure.
  function Merge(s: string, lib: string, profile: string, x: string): string {
    match (Renamed(x, profile), FindLibrary(s, lib))
    case (Some(y), Some(b)) =>
      (match FindProfile(s[b.at..b.end], profile)
       case Some(p) => Spliced(s, b.at + p.at, b.at + p.end, y)
       case None => Spliced(s, b.end, b.end, y))
    case _ => ""
  }

  // ---------- The original's loops ----------

  // What a loop at position pos goes by: the next tag, in positions of the whole text.
  predicate TagFrom(s: string, pos: nat, marker: string, tag: Option<Span>)
    requires marker == LIB || marker == PROF
  {
    && pos <= |s| && tag == ShiftSpan(NextTag(s[pos..], marker), pos)
    && (tag.Some? ==> pos <= tag.value.at < tag.value.end < |s| && s[tag.value.end] == '>')
  }

  method ScanTag(s: string, marker: string, pos: nat) returns (t: Option<Span>)
    requires pos <= |s| && (marker == LIB || marker == PROF)
    ensures TagFrom(s, pos, marker, t)
  {
    hide Find;
    var p := FindFrom(s, marker, pos);
    if p.None? { return None; }
    var e := FindFrom(s, ">", p.value);
    assert s[pos..][p.value - pos..] == s[p.value..];
    if e.None? { return None; }
    return Some(Span(p.value, e.value));
  }

  // ---------- One step of each reading ----------

  lemma ProfileNamesUnfold(s: string)
    ensures ProfileNames(s) ==
            match NextTag(s, PROF)
            case None => []
            case Some(t) =>
              var name := NameOf(s[t.at..t.end + 1]);
              (if name == "" then [] else [name]) + ProfileNames(s[t.end..])
  {
    hide NameOf, NextTag;
  }

  lemma ListingUnfold(s: string)
    ensures Listing(s) ==
            match NextTag(s, LIB)
            case None => []
            case Some(t) =>
              var name, rest := NameOf(s[t.at..t.end + 1]), Listing(s[t.end + 1..]);
              if name == "" then rest
              else match NextClose(s, t.end, LIB_END)
                   case None => []
                   case Some(c) => Pairs(name, ProfileNames(s[t.end + 1..c])) + rest
  {
    hide NameOf, NextTag, NextClose, ProfileNames, Pairs;
  }

  lemma ExtractFromBlockUnfold(s: string, profile: string)
    ensures ExtractFromBlock(s, profile) ==
            match NextTag(s, PROF)
            case None => None
            case Some(t) =>
              if Mentions(s[t.at..t.end + 1], profile) then
                match NextClose(s, t.end, PROF_END)
                case None => None
                case Some(c) => Some(s[t.at..c + |PROF_END|])
              else ExtractFromBlock(s[t.end..], profile)
  {
    hide NextTag, NextClose, Mentions;
  }

  lemma ExtractUnfold(s: string, lib: string, profile: string)
    ensures Extract(s, lib, profile) ==
            match NextTag(s, LIB)
            case None => ""
            case Some(t) =>
              var rest := Extract(s[t.end + 1..], lib, profile);
              if Mentions(s[t.at..t.end + 1], lib) then
                match NextClose(s, t.end, LIB_END)
                case None => ""
                case Some(c) =>
                  (match ExtractFromBlock(s[t.end + 1..c], profile) case Some(x) => x case None => rest)
              else rest
  {
    hide NextTag, NextClose, Mentions, ExtractFromBlock;
  }

  lemma FindLibraryUnfold(s: string, lib: string)
    ensures FindLibrary(s, lib) ==
            match NextTag(s, LIB)
            case None => None
            case Some(t) =>
              var name, rest := NameOf(s[t.at..t.end + 1]), ShiftSpan(FindLibrary(s[t.end + 1..], lib), t.end + 1);
              if name == "" || name != lib then rest
              else match NextClose(s, t.end, LIB_END)
                   case None => rest
                   case Some(c) => Some(Span(t.end + 1, c))
  {
    hide NextTag, NextClose, NameOf, ShiftSpan;
  }

  lemma FindProfileUnfold(s: string, profile: string)
    ensures FindProfile(s, profile) ==
            match NextTag(s, PROF)
            case None => None
            case Some(t) =>
              if NameOf(s[t.at..t.end + 1]) == profile then
                match NextClose(s, t.end, PROF_END)
                case None => None
                case Some(c) => Some(Span(t.at, c + |PROF_END|))
              else ShiftSpan(FindProfile(s[t.end + 1..], profile), t.end + 1)
  {
    hide NextTag, NextClose, NameOf, ShiftSpan;
  }

  // A tag or a closing marker of s, seen from position pos.
  lemma FromPos(s: string, pos: nat, t: Span, marker: string)
    requires pos <= t.at < t.end < |s| && s[t.end] == '>' && (marker == LIB_END || marker == PROF_END)
    ensures s[pos..][t.at - pos..t.end - pos + 1] == s[t.at..t.end + 1]
    ensures s[pos..][t.end - pos..] == s[t.end..]
    ensures s[pos..][t.end - pos + 1..] == s[t.end + 1..]
    ensures NextClose(s[pos..], t.end - pos, marker) ==
            (match NextClose(s, t.end, marker) case None => None case Some(c) => Some(c - pos))
    ensures var c := NextClose(s, t.end, marker);
            c.Some? ==> && s[pos..][t.end - pos + 1..c.value - pos] == s[t.end + 1..c.value]
                        && s[pos..][t.at - pos..c.value - pos + |marker|] == s[t.at..c.value + |marker|]
  {
    hide Find;
    var c := NextClose(s, t.end, marker);
    if c.Some? {
      var n := c.value + |marker|;
      assert s[pos..][t.at - pos..n - pos] == s[t.at..n];
    }
  }

  lemma NamesOfTag(s: string, t: Span, open: string, rest: string)
    requires NextTag(s, PROF) == Some(t) && s[t.at..t.end + 1] == open && s[t.end..] == rest
    ensures ProfileNames(s) == (if NameOf(open) == "" then [] else [NameOf(open)]) + ProfileNames(rest)
  {
    hide NameOf, NextTag, ProfileNames;
    ProfileNamesUnfold(s);
  }

  lemma NamesOfNone(s: string)
    requires NextTag(s, PROF) == None
    ensures ProfileNames(s) == []
  {
    hide NameOf, NextTag, ProfileNames;
    ProfileNamesUnfold(s);
  }

  lemma NamesFrom(s: string, pos: nat, tag: Option<Span>)
    requires TagFrom(s, pos, PROF, tag)
    ensures ProfileNames(s[pos..]) ==
            match tag
            case None => []
            case Some(t) =>
              var name := NameOf(s[t.at..t.end + 1]);
              (if name == "" then [] else [name]) + ProfileNames(s[t.end..])
  {
    hide NameOf, NextTag, NextClose, ProfileNames;
    match tag
    case None => NamesOfNone(s[pos..]);
    case Some(t) =>
      FromPos(s, pos, t, PROF_END);
      NamesOfTag(s[pos..], Span(t.at - pos, t.end - pos), s[t.at..t.end + 1], s[t.end..]);
  }

  lemma ListingFrom(s: string, pos: nat, tag: Option<Span>)
    requires TagFrom(s, pos, LIB, tag)
    ensures Listing(s[pos..]) ==
            match tag
            case None => []
            case Some(t) =>
              var name, rest := NameOf(s[t.at..t.end + 1]), Listing(s[t.end + 1..]);
              if name == "" then rest
              else match NextClose(s, t.end, LIB_END)
                   case None => []
                   case Some(c) => Pairs(name, ProfileNames(s[t.end + 1..c])) + rest
  {
    hide NameOf, NextTag, NextClose, ProfileNames, Listing, Pairs;
    ListingUnfold(s[pos..]);
    if tag.Some? { FromPos(s, pos, tag.value, LIB_END); }
  }

  lemma BlockFrom(s: string, pos: nat, tag: Option<Span>, profile: string)
    requires TagFrom(s, pos, PROF, tag)
    ensures ExtractFromBlock(s[pos..], profile) ==
            match tag
            case None => None
            case Some(t) =>
              if Mentions(s[t.at..t.end + 1], profile) then
                match NextClose(s, t.end, PROF_END)
                case None => None
                case Some(c) => Some(s[t.at..c + |PROF_END|])
              else ExtractFromBlock(s[t.end..], profile)
  {
    hide NextTag, NextClose, Mentions, ExtractFromBlock;
    ExtractFromBlockUnfold(s[pos..], profile);
    if tag.Some? { FromPos(s, pos, tag.value, PROF_END); }
  }

  lemma ExtractFrom(s: string, pos: nat, tag: Option<Span>, lib: string, profile: string)
    requires TagFrom(s, pos, LIB, tag)
    ensures Extract(s[pos..], lib, profile) ==
            match tag
            case None => ""
            case Some(t) =>
              var rest := Extract(s[t.end + 1..], lib, profile);
              if Mentions(s[t.at..t.end + 1], lib) then
                match NextClose(s, t.end, LIB_END)
                case None => ""
                case Some(c) =>
                  (match ExtractFromBlock(s[t.end + 1..c], profile) case Some(x) => x case None => rest)
              else rest
  {
    hide NextTag, NextClose, Mentions, ExtractFromBlock, Extract;
    ExtractUnfold(s[pos..], lib, profile);
    if tag.Some? { FromPos(s, pos, tag.value, LIB_END); }
  }

  lemma LibraryFrom(s: string, pos: nat, tag: Option<Span>, lib: string)
    requires TagFrom(s, pos, LIB, tag)
    ensures ShiftSpan(FindLibrary(s[pos..], lib), pos) ==
            match tag
            case None => None
            case Some(t) =>
              var name, rest := NameOf(s[t.at..t.end + 1]), ShiftSpan(FindLibrary(s[t.end + 1..], lib), t.end + 1);
              if name == "" || name != lib then rest
              else match NextClose(s, t.end, LIB_END)
                   case None => rest
                   case Some(c) => Some(Span(t.end + 1, c))
  {
    hide NextTag, NextClose, NameOf, FindLibrary;
    FindLibraryUnfold(s[pos..], lib);
    if tag.Some? { FromPos(s, pos, tag.value, LIB_END); }
  }

  lemma ProfileFrom(s: string, pos: nat, tag: Option<Span>, profile: string)
    requires TagFrom(s, pos, PROF, tag)
    ensures ShiftSpan(FindProfile(s[pos..], profile), pos) ==
            match tag
            case None => None
            case Some(t) =>
              if NameOf(s[t.at..t.end + 1]) == profile then
                match NextClose(s, t.end, PROF_END)
                case None => None
                case Some(c) => Some(Span(t.at, c + |PROF_END|))
              else ShiftSpan(FindProfile(s[t.end + 1..], profile), t.end + 1)
  {
    hide NextTag, NextClose, NameOf, FindProfile;
    FindProfileUnfold(s[pos..], profile);
    if tag.Some? { FromPos(s, pos, tag.value, PROF_END); }
  }

  lemma PairsMore(lib: string, names: seq<string>, name: string)
    ensures Pairs(lib, names + [name]) == Pairs(lib, names) + [(lib, name)]
  {
  }

  lemma NamesRegroup(names: seq<string>, name: string, rest: seq<string>)
    ensures names + ([name] + rest) == (names + [name]) + rest && names + ([] + rest) == names + rest
  {
    assert [] + rest == rest;
  }

  method ParseProfilesOfBlock(lib: string, block: string) returns (out: seq<(string, string)>)
    ensures out == Pairs(lib, ProfileNames(block))
  {
    hide NameOf, NextTag, ProfileNames, Pairs;
    out := [];
    ghost var names: seq<string> := [];
    var pos := 0;
    while true
      invariant 0 <= pos <= |block|
      invariant names + ProfileNames(block[pos..]) == ProfileNames(block)
      invariant out == Pairs(lib, names)
      decreases |block| - pos
    {
      var tag := ScanTag(block, PROF, pos);
      NamesFrom(block, pos, tag);
      if tag.None? { break; }
      var name := NameOf(block[tag.value.at..tag.value.end + 1]);
      NamesRegroup(names, name, ProfileNames(block[tag.value.end..]));
      if name != "" {
        PairsMore(lib, names, name);
        out := out + [(lib, name)];
        names := names + [name];
      }
      pos := tag.value.end;
    }
  }

  lemma ListRegroup(out: seq<(string, string)>, found: seq<(string, string)>, rest: seq<(string, string)>)
    ensures out + (found + rest) == (out + found) + rest && out + [] == out
  {
  }

  method ParseProfiles(content: string) returns (out: seq<(string, string)>)
    ensures out == Listing(content)
  {
    hide NameOf, NextTag, NextClose, ProfileNames, Listing, Pairs;
    out := [];
    var pos := 0;
    while true
      invariant 0 <= pos <= |content|
      invariant out + Listing(content[pos..]) == Listing(content)
      decreases |content| - pos
    {
      var tag := ScanTag(content, LIB, pos);
      ListingFrom(content, pos, tag);
      if tag.None? { break; }
      var end := tag.value.end;
      var name := NameOf(content[tag.value.at..end + 1]);
      if name != "" {
        var close := NextClose(content, end, LIB_END);
        if close.None? { break; }
        var found := ParseProfilesOfBlock(name, content[end + 1..close.value]);
        ListRegroup(out, found, Listing(content[end + 1..]));
        out := out + found;
      }
      pos := end + 1;
    }
  }

  method ExtractFromBlockLoop(block: string, profile: string) returns (r: Option<string>)
    ensures r == ExtractFromBlock(block, profile)
  {
    hide NextTag, NextClose, Mentions, ExtractFromBlock;
    var pos := 0;
    while true
      invariant 0 <= pos <= |block|
      invariant ExtractFromBlock(block[pos..], profile) == ExtractFromBlock(block, profile)
      decreases |block| - pos
    {
      var tag := ScanTag(block, PROF, pos);
      BlockFrom(block, pos, tag, profile);
      if tag.None? { return None; }
      if Mentions(block[tag.value.at..tag.value.end + 1], profile) {
        var close := NextClose(block, tag.value.end, PROF_END);
        if close.None? { return None; }
        return Some(block[tag.value.at..close.value + |PROF_END|]);
      }
      pos := tag.value.end;
    }
  }

  method ExtractProfile(content: string, lib: string, profile: string) returns (xml: string)
    ensures xml == Extract(content, lib, profile)
  {
    hide NextTag, NextClose, Mentions, ExtractFromBlock, Extract;
    var pos := 0;
    while true
      invariant 0 <= pos <= |content|
      invariant Extract(content[pos..], lib, profile) == Extract(content, lib, profile)
      decreases |content| - pos
    {
      var tag := ScanTag(content, LIB, pos);
      ExtractFrom(content, pos, tag, lib, profile);
      if tag.None? { return ""; }
      var end := tag.value.end;
      if Mentions(content[tag.value.at..end + 1], lib) {
        var close := NextClose(content, end, LIB_END);
        if close.None? { return ""; }
        var found := ExtractFromBlockLoop(content[end + 1..close.value], profile);
        if found.Some? { return found.value; }
      }
      pos := end + 1;
    }
  }

  method FindLibraryLoop(s: string, lib: string) returns (r: Option<Span>)
    ensures r == FindLibrary(s, lib)
  {
    hide NextTag, NextClose, NameOf, FindLibrary;
    var pos := 0;
    while true
      invariant 0 <= pos <= |s|
      invariant ShiftSpan(FindLibrary(s[pos..], lib), pos) == FindLibrary(s, lib)
      decreases |s| - pos
    {
      var tag := ScanTag(s, LIB, pos);
      LibraryFrom(s, pos, tag, lib);
      if tag.None? { return None; }
      var end := tag.value.end;
      var name := NameOf(s[tag.value.at..end + 1]);
      if name != "" && name == lib {
        var close := NextClose(s, end, LIB_END);
        if close.Some? { return Some(Span(end + 1, close.value)); }
      }
      pos := end + 1;
    }
  }

  method FindProfileLoop(block: string, profile: string) returns (r: Option<Span>)
    ensures r == FindProfile(block, profile)
  {
    hide NextTag, NextClose, NameOf, FindProfile;
    var pos := 0;
    while true
      invariant 0 <= pos <= |block|
      invariant ShiftSpan(FindProfile(block[pos..], profile), pos) == FindProfile(block, profile)
      decreases |block| - pos
    {
      var tag := ScanTag(block, PROF, pos);
      ProfileFrom(block, pos, tag, profile);
      if tag.None? { return None; }
      if NameOf(block[tag.value.at..tag.value.end + 1]) == profile {
        var close := NextClose(block, tag.value.end, PROF_END);
        if close.None? { return None; }
        return Some(Span(tag.value.at, close.value + |PROF_END|));
      }
      pos := tag.value.end + 1;
    }
  }

  method MergeProfileIntoLibrary(libXml: string, lib: string, profile: string, profileXml: string)
    returns (result: string)
    ensures result == Merge(libXml, lib, profile, profileXml)
  {
    hide Renamed, FindLibrary, FindProfile;
    var normalized := Renamed(profileXml, profile);
    if normalized.None? { return ""; }
    var block := FindLibraryLoop(libXml, lib);
    if block.None? { return ""; }
    var start, end := block.value.at, block.value.end;
    var found := FindProfileLoop(libXml[start..end], profile);
    if found.Some? {
      result := libXml[..start + found.value.at] + "  " + normalized.value + "\n" + libXml[start + found.value.end..];
    } else {
      result := libXml[..end] + "  " + normalized.value + "\n" + libXml[end..];
    }
  }
}
