// What the scanners find on any text at all, told by the tags and closing markers that stand in it
// (RtpDdsGateway/src/qos_xml_helpers.cpp, lines 292-396 and 511-595).
module QosScan {
  import opened Wrappers
  import opened Text
  import opened QosXml

  // ---------- Tags and closing markers ----------

  // t is the next tag from pos: the first marker, up to the first closing bracket after it.
  predicate Tag(s: string, marker: string, pos: nat, t: Span) {
    && pos <= t.at < t.end < |s| && s[t.end] == '>'
    && MatchAt(s, marker, t.at) && (forall i :: pos <= i < t.at ==> !MatchAt(s, marker, i))
    && forall i :: t.at <= i < t.end ==> s[i] != '>'
  }

  // The first closing marker from e stands at c.
  predicate Closes(s: string, e: nat, marker: string, c: int) {
    e <= c && MatchAt(s, marker, c) && forall i :: e <= i < c ==> !MatchAt(s, marker, i)
  }

  predicate IsMarker(m: string) { m == "<qos_library" || m == "<qos_profile" }

  predicate IsEnd(m: string) { m == "</qos_library>" || m == "</qos_profile>" }

  lemma FindFromExactly(s: string, pat: string, pos: nat, p: nat)
    ensures FindFrom(s, pat, pos) == Some(p) <==>
            pos <= p && MatchAt(s, pat, p) && forall i :: pos <= i < p ==> !MatchAt(s, pat, i)
  {
    if pos <= |s| {
      FindSpec(s[pos..], pat);
      hide Find, MatchAt;
      forall i: int | i >= pos ensures MatchAt(s, pat, i) == MatchAt(s[pos..], pat, i - pos) {
        MatchDrop(s, pat, pos, i);
      }
      match Find(s[pos..], pat)
      case None => if p >= pos { assert MatchAt(s, pat, p) == MatchAt(s[pos..], pat, p - pos); }
      case Some(k) =>
        assert MatchAt(s, pat, pos + k) == MatchAt(s[pos..], pat, k);
        forall i | pos <= i < pos + k ensures !MatchAt(s, pat, i) { assert !MatchAt(s[pos..], pat, i - pos); }
    } else {
      NoMatchBeyond(s, pat, p);
    }
  }

  lemma NoMatchBeyond(s: string, pat: string, p: nat)
    ensures p > |s| ==> !MatchAt(s, pat, p)
  {
  }

  lemma BracketAt(s: string, i: nat)
    ensures MatchAt(s, ">", i) <==> i < |s| && s[i] == '>'
  {
    if i < |s| { assert s[i..i + 1] == [s[i]]; }
  }

  lemma NoBracketMark(s: string, marker: string, i: nat)
    requires IsMarker(marker) && i < |s| && s[i] == '>'
    ensures !MatchAt(s, marker, i)
  {
    if i + |marker| <= |s| { assert s[i..i + |marker|][0] == s[i]; }
  }

  // The next tag in positions of the whole text.
  lemma NextTagFrom(s: string, marker: string, pos: nat)
    requires IsMarker(marker) && pos <= |s|
    ensures ShiftSpan(NextTag(s[pos..], marker), pos) ==
            match FindFrom(s, marker, pos)
            case None => None
            case Some(p) => match FindFrom(s, ">", p) case None => None case Some(e) => Some(Span(p, e))
  {
    hide Find;
    var p := FindFrom(s, marker, pos);
    if p.Some? { assert s[pos..][p.value - pos..] == s[p.value..]; }
  }

  lemma TagExactly(s: string, marker: string, pos: nat, t: Span)
    requires IsMarker(marker) && pos <= |s|
    ensures ShiftSpan(NextTag(s[pos..], marker), pos) == Some(t) <==> Tag(s, marker, pos, t)
  {
    NextTagFrom(s, marker, pos);
    FindFromExactly(s, marker, pos, t.at);
    FindFromExactly(s, ">", t.at, t.end);
    forall i: nat ensures MatchAt(s, ">", i) <==> i < |s| && s[i] == '>' { BracketAt(s, i); }
    if MatchAt(s, marker, t.at) && t.at < |s| && s[t.at] == '>' { NoBracketMark(s, marker, t.at); }
    hide FindFrom, MatchAt, NextTag;
  }

  lemma CloseExactly(s: string, e: nat, marker: string, c: nat)
    requires e < |s| && s[e] == '>' && IsEnd(marker)
    ensures NextClose(s, e, marker) == Some(c) <==> Closes(s, e, marker, c)
  {
    hide FindFrom, MatchAt;
    FindFromExactly(s, marker, e, c);
  }

  // ---------- All tags of a text ----------

  // Where the search for tag i begins: at the end of the one before it.
  function From(ts: seq<Span>, i: nat): nat
    requires i <= |ts|
  {
    if i == 0 then 0 else ts[i - 1].end
  }

  ghost predicate Tags(s: string, marker: string, ts: seq<Span>) {
    && (forall i :: 0 <= i < |ts| ==> Tag(s, marker, From(ts, i), ts[i]))
    && forall t :: !Tag(s, marker, From(ts, |ts|), t)
  }

  // Every text has its tags.
  lemma TagsExist(s: string, marker: string)
    requires IsMarker(marker)
    ensures exists ts :: Tags(s, marker, ts)
  {
    MoreTags(s, marker, []);
  }

  lemma {:induction false} MoreTags(s: string, marker: string, ts: seq<Span>)
    requires IsMarker(marker) && forall i :: 0 <= i < |ts| ==> Tag(s, marker, From(ts, i), ts[i])
    ensures exists all :: Tags(s, marker, all)
    decreases |s| - From(ts, |ts|)
  {
    hide Tag;
    if t :| Tag(s, marker, From(ts, |ts|), t) {
      TagIn(s, marker, From(ts, |ts|), t);
      if ts != [] { TagIn(s, marker, From(ts, |ts| - 1), ts[|ts| - 1]); }
      var ts' := ts + [t];
      forall i | 0 <= i < |ts'| ensures Tag(s, marker, From(ts', i), ts'[i]) {}
      MoreTags(s, marker, ts');
    } else {
      assert Tags(s, marker, ts);
    }
  }

  lemma TagIn(s: string, marker: string, pos: nat, t: Span)
    requires Tag(s, marker, pos, t)
    ensures pos <= t.at < t.end < |s| && s[t.end] == '>'
  {
  }

  // The loops go on from a tag's end or from the position after it, which is the same.
  lemma SkipBracket(s: string, marker: string, e: nat, t: Span)
    requires IsMarker(marker) && e < |s| && s[e] == '>'
    ensures Tag(s, marker, e, t) <==> Tag(s, marker, e + 1, t)
  {
    hide MatchAt;
    NoBracketMark(s, marker, e);
  }

  // pos is where a loop looks for tag i.
  predicate Looks(ts: seq<Span>, i: nat, pos: nat)
    requires i <= |ts|
  {
    pos == From(ts, i) || (i > 0 && pos == From(ts, i) + 1)
  }

  lemma NextIs(s: string, marker: string, ts: seq<Span>, i: nat, pos: nat)
    requires IsMarker(marker) && Tags(s, marker, ts) && i <= |ts| && Looks(ts, i, pos)
    ensures TagFrom(s, pos, marker, if i < |ts| then Some(ts[i]) else None)
    ensures i < |ts| ==> ts[i].at < ts[i].end < |s| && s[ts[i].end] == '>'
  {
    hide Tag, NextTag, IsMarker;
    if i > 0 { TagIn(s, marker, From(ts, i - 1), ts[i - 1]); }
    if i < |ts| { TagIn(s, marker, From(ts, i), ts[i]); }
    SameLook(s, marker, ts, i, pos);
    if i < |ts| {
      TagExactly(s, marker, pos, ts[i]);
    } else {
      NoneExactly(s, marker, pos);
    }
  }

  lemma SameLook(s: string, marker: string, ts: seq<Span>, i: nat, pos: nat)
    requires IsMarker(marker) && i <= |ts| && Looks(ts, i, pos)
    requires i > 0 ==> From(ts, i) < |s| && s[From(ts, i)] == '>'
    ensures forall t :: Tag(s, marker, From(ts, i), t) <==> Tag(s, marker, pos, t)
  {
    hide Tag, IsMarker;
    if pos != From(ts, i) {
      forall t ensures Tag(s, marker, From(ts, i), t) <==> Tag(s, marker, pos, t) {
        SkipBracket(s, marker, From(ts, i), t);
      }
    }
  }

  lemma NoneExactly(s: string, marker: string, pos: nat)
    requires IsMarker(marker) && pos <= |s| && forall t :: !Tag(s, marker, pos, t)
    ensures ShiftSpan(NextTag(s[pos..], marker), pos) == None
  {
    hide Tag, NextTag;
    var o := ShiftSpan(NextTag(s[pos..], marker), pos);
    if o.Some? { TagExactly(s, marker, pos, o.value); }
  }

  function TextOf(s: string, t: Span): string
    requires t.at <= t.end < |s|
  {
    s[t.at..t.end + 1]
  }

  ghost predicate Closed(s: string, t: Span, marker: string) {
    exists c :: Closes(s, t.end, marker, c)
  }

  // ---------- Inside a library ----------

  // The names of the tags that have one, in order.
  function NamesOf(s: string, ts: seq<Span>): seq<string>
    requires forall t <- ts :: t.at <= t.end < |s|
  {
    if ts == [] then []
    else (if NameOf(TextOf(s, ts[0])) == "" then [] else [NameOf(TextOf(s, ts[0]))]) + NamesOf(s, ts[1..])
  }

  lemma TagsIn(s: string, marker: string, ts: seq<Span>)
    requires Tags(s, marker, ts)
    ensures forall i :: 0 <= i < |ts| ==> ts[i].at < ts[i].end < |s| && s[ts[i].end] == '>'
  {
    hide Tag;
    forall i | 0 <= i < |ts| ensures ts[i].at < ts[i].end < |s| && s[ts[i].end] == '>' {
      TagIn(s, marker, From(ts, i), ts[i]);
    }
  }

  // A block lists the names of all its profile tags.
  lemma NamesExactly(block: string, ts: seq<Span>)
    requires Tags(block, "<qos_profile", ts)
    ensures forall t <- ts :: t.at <= t.end < |block|
    ensures ProfileNames(block) == NamesOf(block, ts)
  {
    hide ProfileNames;
    TagsIn(block, "<qos_profile", ts);
    assert ts[0..] == ts && block[0..] == block;
    NamesFromTag(block, ts, 0, 0);
  }

  lemma {:induction false} NamesFromTag(block: string, ts: seq<Span>, i: nat, pos: nat)
    requires Tags(block, "<qos_profile", ts) && i <= |ts| && Looks(ts, i, pos) && pos <= |block|
    requires forall t <- ts :: t.at <= t.end < |block|
    ensures ProfileNames(block[pos..]) == NamesOf(block, ts[i..])
    decreases |ts| - i
  {
    hide ProfileNames, NameOf, Tags, NextTag;
    NextIs(block, "<qos_profile", ts, i, pos);
    NamesFrom(block, pos, if i < |ts| then Some(ts[i]) else None);
    if i < |ts| {
      NamesFromTag(block, ts, i + 1, ts[i].end);
      assert ts[i..][0] == ts[i] && ts[i..][1..] == ts[i + 1..];
    }
  }

  // A profile tag mentions the name, and is the first of those from tag i on to do so.
  ghost predicate FirstMention(s: string, ts: seq<Span>, i: nat, j: int, x: string)
    requires forall t <- ts :: t.at <= t.end < |s|
  {
    i <= j < |ts| && Mentions(TextOf(s, ts[j]), x) && forall h :: i <= h < j ==> !Mentions(TextOf(s, ts[h]), x)
  }

  // A profile is taken from the first tag that mentions its name up to the closing marker after it; there is
  // none when no tag does, or nothing closes that one.
  ghost predicate BlockGives(s: string, ts: seq<Span>, i: nat, profile: string, r: Option<string>)
    requires forall t <- ts :: t.at <= t.end < |s|
  {
    match r
    case Some(x) =>
      exists j, c :: && FirstMention(s, ts, i, j, profile) && Closes(s, ts[j].end, "</qos_profile>", c)
                     && c + 14 <= |s| && ts[j].at <= c && x == s[ts[j].at..c + 14]
    case None => forall j :: FirstMention(s, ts, i, j, profile) ==> !Closed(s, ts[j], "</qos_profile>")
  }

  lemma BlockExactly(block: string, profile: string, ts: seq<Span>)
    requires Tags(block, "<qos_profile", ts)
    ensures forall t <- ts :: t.at <= t.end < |block|
    ensures BlockGives(block, ts, 0, profile, ExtractFromBlock(block, profile))
  {
    hide ExtractFromBlock;
    TagsIn(block, "<qos_profile", ts);
    assert block[0..] == block;
    BlockFromTag(block, profile, ts, 0, 0);
  }

  lemma {:induction false} BlockFromTag(s: string, profile: string, ts: seq<Span>, i: nat, pos: nat)
    requires Tags(s, "<qos_profile", ts) && i <= |ts| && Looks(ts, i, pos) && pos <= |s|
    requires forall t <- ts :: t.at <= t.end < |s|
    ensures BlockGives(s, ts, i, profile, ExtractFromBlock(s[pos..], profile))
    decreases |ts| - i
  {
    hide ExtractFromBlock, Mentions, Tags, NextTag, Closes;
    NextIs(s, "<qos_profile", ts, i, pos);
    BlockFrom(s, pos, if i < |ts| then Some(ts[i]) else None, profile);
    if i < |ts| {
      if Mentions(TextOf(s, ts[i]), profile) {
        CloseFound(s, ts[i], "</qos_profile>");
        assert FirstMention(s, ts, i, i, profile);
      } else {
        BlockFromTag(s, profile, ts, i + 1, ts[i].end);
        forall j ensures FirstMention(s, ts, i, j, profile) <==> FirstMention(s, ts, i + 1, j, profile) {}
      }
    }
  }

  lemma CloseFound(s: string, t: Span, marker: string)
    requires t.at < t.end < |s| && s[t.end] == '>' && IsEnd(marker)
    ensures match NextClose(s, t.end, marker)
            case Some(c) => Closes(s, t.end, marker, c) && t.end <= c && c + |marker| <= |s| && Closed(s, t, marker)
            case None => !Closed(s, t, marker)
  {
    hide NextClose, MatchAt;
    match NextClose(s, t.end, marker)
    case Some(c) => CloseExactly(s, t.end, marker, c);
    case None =>
      forall c: nat ensures !Closes(s, t.end, marker, c) { CloseExactly(s, t.end, marker, c); }
  }

  // ---------- Over libraries ----------

  // A named library that nothing closes ends the listing.
  ghost predicate Ends(s: string, t: Span)
    requires t.at <= t.end < |s|
  {
    NameOf(TextOf(s, t)) != "" && !Closed(s, t, "</qos_library>")
  }

  // The library up to its closing marker lists the pair.
  ghost predicate Holds(s: string, t: Span, lib: string, profile: string)
    requires t.at <= t.end < |s|
  {
    && NameOf(TextOf(s, t)) == lib != ""
    && exists c ::
         Closes(s, t.end, "</qos_library>", c) && t.end < c <= |s| && profile in ProfileNames(s[t.end + 1..c])
  }

  // So does library j, and the listing gets there from library i.
  ghost predicate ListsPair(s: string, ts: seq<Span>, i: nat, j: int, lib: string, profile: string)
    requires forall t <- ts :: t.at <= t.end < |s|
  {
    i <= j < |ts| && Holds(s, ts[j], lib, profile) && forall h :: i <= h < j ==> !Ends(s, ts[h])
  }

  // The pairs listed are those of the named libraries before one that nothing closes.
  lemma ListingExactly(s: string, lib: string, profile: string, ts: seq<Span>)
    requires Tags(s, "<qos_library", ts)
    ensures forall t <- ts :: t.at <= t.end < |s|
    ensures (lib, profile) in Listing(s) <==> exists j :: ListsPair(s, ts, 0, j, lib, profile)
  {
    hide Listing, ListsPair;
    TagsIn(s, "<qos_library", ts);
    assert s[0..] == s;
    ListingFromTag(s, lib, profile, ts, 0, 0);
  }

  lemma InPairs(lib: string, names: seq<string>, n: (string, string))
    ensures n in Pairs(lib, names) <==> n.0 == lib && n.1 in names
  {
    if n.0 == lib && n.1 in names {
      var i :| 0 <= i < |names| && names[i] == n.1;
      assert Pairs(lib, names)[i] == n;
    }
  }

  lemma {:induction false} ListingFromTag(s: string, lib: string, profile: string, ts: seq<Span>, i: nat, pos: nat)
    requires Tags(s, "<qos_library", ts) && i <= |ts| && Looks(ts, i, pos) && pos <= |s|
    requires forall t <- ts :: t.at <= t.end < |s|
    ensures (lib, profile) in Listing(s[pos..]) <==> exists j :: ListsPair(s, ts, i, j, lib, profile)
    decreases |ts| - i
  {
    hide Listing, NameOf, Tags, NextTag, ListsPair, Pairs, ProfileNames, Holds, Ends;
    NextIs(s, "<qos_library", ts, i, pos);
    ListingFrom(s, pos, if i < |ts| then Some(ts[i]) else None);
    if i < |ts| {
      ListingFromTag(s, lib, profile, ts, i + 1, ts[i].end + 1);
      LaterPairs(s, ts, i, i + 1, lib, profile);
      HereExactly(s, ts[i], lib, profile);
    } else {
      NothingListed(s, ts, lib, profile);
    }
  }

  lemma NothingListed(s: string, ts: seq<Span>, lib: string, profile: string)
    requires forall t <- ts :: t.at <= t.end < |s|
    ensures forall j :: !ListsPair(s, ts, |ts|, j, lib, profile)
  {
  }

  lemma HereExactly(s: string, t: Span, lib: string, profile: string)
    requires t.at < t.end < |s| && s[t.end] == '>'
    ensures var name, close := NameOf(TextOf(s, t)), NextClose(s, t.end, "</qos_library>");
            && (Ends(s, t) <==> name != "" && close.None?)
            && (Holds(s, t, lib, profile) <==>
                  name != "" && close.Some? && (lib, profile) in Pairs(name, ProfileNames(s[t.end + 1..close.value])))
  {
    hide NameOf, NextClose, ProfileNames, Pairs, Closes, MatchAt;
    CloseFound(s, t, "</qos_library>");
    var close := NextClose(s, t.end, "</qos_library>");
    if close.Some? {
      InPairs(NameOf(TextOf(s, t)), ProfileNames(s[t.end + 1..close.value]), (lib, profile));
      OneClose(s, t.end, "</qos_library>", close.value);
    }
  }

  lemma OneClose(s: string, e: nat, marker: string, c: int)
    requires Closes(s, e, marker, c)
    ensures forall c' :: Closes(s, e, marker, c') ==> c' == c
  {
    hide MatchAt;
  }

  // Listed by this library, or by a later one if this does not end the listing.
  lemma LaterPairs(s: string, ts: seq<Span>, i: nat, k: nat, lib: string, profile: string)
    requires k == i + 1 <= |ts| && forall t <- ts :: t.at <= t.end < |s|
    ensures (exists j :: ListsPair(s, ts, i, j, lib, profile)) <==>
            || Holds(s, ts[i], lib, profile)
            || (!Ends(s, ts[i]) && exists j :: ListsPair(s, ts, k, j, lib, profile))
  {
    hide Ends, Holds;
    if j :| ListsPair(s, ts, i, j, lib, profile) {
      if j > i { assert ListsPair(s, ts, k, j, lib, profile); }
    }
    if j :| ListsPair(s, ts, k, j, lib, profile) {
      if !Ends(s, ts[i]) { assert ListsPair(s, ts, i, j, lib, profile); }
    }
    if Holds(s, ts[i], lib, profile) { assert ListsPair(s, ts, i, i, lib, profile); }
  }

  // The library's tag mentions the name, it is closed, and inside it the profile is found as x.
  ghost predicate Gives(s: string, t: Span, lib: string, profile: string, x: string)
    requires t.at <= t.end < |s|
  {
    && Mentions(TextOf(s, t), lib)
    && exists c ::
         && Closes(s, t.end, "</qos_library>", c) && t.end < c <= |s|
         && ExtractFromBlock(s[t.end + 1..c], profile) == Some(x)
  }

  // The search goes on after this library.
  ghost predicate Passes(s: string, t: Span, lib: string, profile: string)
    requires t.at <= t.end < |s|
  {
    Mentions(TextOf(s, t), lib) ==> Closed(s, t, "</qos_library>") && forall x :: !Gives(s, t, lib, profile, x)
  }

  ghost predicate ExtractGives(s: string, ts: seq<Span>, i: nat, j: int, lib: string, profile: string, x: string)
    requires forall t <- ts :: t.at <= t.end < |s|
  {
    i <= j < |ts| && Gives(s, ts[j], lib, profile, x) && forall h :: i <= h < j ==> Passes(s, ts[h], lib, profile)
  }

  // What is extracted comes from the first library that mentions its name and gives the profile, if none
  // before it mentions the name and is not closed; otherwise nothing is.
  lemma ExtractExactly(s: string, lib: string, profile: string, x: string, ts: seq<Span>)
    requires Tags(s, "<qos_library", ts)
    ensures forall t <- ts :: t.at <= t.end < |s|
    ensures x != "" ==> (Extract(s, lib, profile) == x <==> exists j :: ExtractGives(s, ts, 0, j, lib, profile, x))
  {
    hide Extract, ExtractGives;
    TagsIn(s, "<qos_library", ts);
    assert s[0..] == s;
    ExtractFromTag(s, lib, profile, x, ts, 0, 0);
  }

  lemma {:induction false} ExtractFromTag(s: string, lib: string, profile: string, x: string, ts: seq<Span>, i: nat,
                                          pos: nat)
    requires Tags(s, "<qos_library", ts) && i <= |ts| && Looks(ts, i, pos) && pos <= |s|
    requires forall t <- ts :: t.at <= t.end < |s|
    ensures x != "" ==>
            (Extract(s[pos..], lib, profile) == x <==> exists j :: ExtractGives(s, ts, i, j, lib, profile, x))
    decreases |ts| - i
  {
    hide Extract, Mentions, Tags, NextTag, ExtractGives, ExtractFromBlock, Gives, Passes;
    NextIs(s, "<qos_library", ts, i, pos);
    ExtractFrom(s, pos, if i < |ts| then Some(ts[i]) else None, lib, profile);
    if i < |ts| {
      ExtractFromTag(s, lib, profile, x, ts, i + 1, ts[i].end + 1);
      LaterGives(s, ts, i, i + 1, lib, profile, x);
      GivesExactly(s, ts[i], lib, profile, x);
    } else {
      NothingGiven(s, ts, lib, profile, x);
    }
  }

  lemma NothingGiven(s: string, ts: seq<Span>, lib: string, profile: string, x: string)
    requires forall t <- ts :: t.at <= t.end < |s|
    ensures forall j :: !ExtractGives(s, ts, |ts|, j, lib, profile, x)
  {
  }

  lemma GivesExactly(s: string, t: Span, lib: string, profile: string, x: string)
    requires t.at < t.end < |s| && s[t.end] == '>'
    ensures var close := NextClose(s, t.end, "</qos_library>");
            && (Gives(s, t, lib, profile, x) <==>
                  && Mentions(TextOf(s, t), lib) && close.Some?
                  && ExtractFromBlock(s[t.end + 1..close.value], profile) == Some(x))
            && (Passes(s, t, lib, profile) <==>
                  (Mentions(TextOf(s, t), lib) ==>
                     close.Some? && ExtractFromBlock(s[t.end + 1..close.value], profile) == None))
  {
    hide NextClose, Mentions, Closes, MatchAt, ExtractFromBlock;
    CloseFound(s, t, "</qos_library>");
    var close := NextClose(s, t.end, "</qos_library>");
    if close.Some? {
      OneClose(s, t.end, "</qos_library>", close.value);
      var r := ExtractFromBlock(s[t.end + 1..close.value], profile);
      if r.Some? && Mentions(TextOf(s, t), lib) { assert Gives(s, t, lib, profile, r.value); }
    }
  }

  lemma LaterGives(s: string, ts: seq<Span>, i: nat, k: nat, lib: string, profile: string, x: string)
    requires k == i + 1 <= |ts| && forall t <- ts :: t.at <= t.end < |s|
    ensures (exists j :: ExtractGives(s, ts, i, j, lib, profile, x)) <==>
            || Gives(s, ts[i], lib, profile, x)
            || (Passes(s, ts[i], lib, profile) && exists j :: ExtractGives(s, ts, k, j, lib, profile, x))
  {
    hide Passes, Gives;
    if j :| ExtractGives(s, ts, i, j, lib, profile, x) {
      if j > i { assert ExtractGives(s, ts, k, j, lib, profile, x); }
    }
    if j :| ExtractGives(s, ts, k, j, lib, profile, x) {
      if Passes(s, ts[i], lib, profile) { assert ExtractGives(s, ts, i, j, lib, profile, x); }
    }
    if Gives(s, ts[i], lib, profile, x) { assert ExtractGives(s, ts, i, i, lib, profile, x); }
  }

  // ---------- What a merge looks for ----------

  // Tag j has the name, and is the first of those from tag i on to have it and be closed.
  ghost predicate FirstClosed(s: string, ts: seq<Span>, i: nat, j: int, lib: string)
    requires forall t <- ts :: t.at <= t.end < |s|
  {
    && i <= j < |ts| && NameOf(TextOf(s, ts[j])) == lib && Closed(s, ts[j], "</qos_library>")
    && forall h :: i <= h < j && NameOf(TextOf(s, ts[h])) == lib ==> !Closed(s, ts[h], "</qos_library>")
  }

  // From the end of that tag to its closing marker, or nothing when no closed library has the name.
  ghost predicate LibraryIs(s: string, ts: seq<Span>, i: nat, lib: string, r: Option<Span>)
    requires forall t <- ts :: t.at <= t.end < |s|
  {
    match r
    case Some(b) =>
      && lib != ""
      && exists j ::
           FirstClosed(s, ts, i, j, lib) && b.at == ts[j].end + 1 && Closes(s, ts[j].end, "</qos_library>", b.end)
    case None => lib != "" ==> forall j :: !FirstClosed(s, ts, i, j, lib)
  }

  lemma LibraryExactly(s: string, lib: string, ts: seq<Span>)
    requires Tags(s, "<qos_library", ts)
    ensures forall t <- ts :: t.at <= t.end < |s|
    ensures LibraryIs(s, ts, 0, lib, FindLibrary(s, lib))
  {
    hide FindLibrary;
    TagsIn(s, "<qos_library", ts);
    assert s[0..] == s;
    ShiftNone(FindLibrary(s, lib));
    LibraryFromTag(s, lib, ts, 0, 0);
  }

  lemma ShiftNone(o: Option<Span>)
    ensures ShiftSpan(o, 0) == o
  {
  }

  lemma {:induction false} LibraryFromTag(s: string, lib: string, ts: seq<Span>, i: nat, pos: nat)
    requires Tags(s, "<qos_library", ts) && i <= |ts| && Looks(ts, i, pos) && pos <= |s|
    requires forall t <- ts :: t.at <= t.end < |s|
    ensures LibraryIs(s, ts, i, lib, ShiftSpan(FindLibrary(s[pos..], lib), pos))
    decreases |ts| - i
  {
    hide FindLibrary, NameOf, Tags, NextTag, Closes, NextClose, ShiftSpan, Closed, FirstClosed;
    NextIs(s, "<qos_library", ts, i, pos);
    LibraryFrom(s, pos, if i < |ts| then Some(ts[i]) else None, lib);
    if i < |ts| {
      CloseFound(s, ts[i], "</qos_library>");
      LibraryFromTag(s, lib, ts, i + 1, ts[i].end + 1);
      LaterClosed(s, ts, i, i + 1, lib);
      assert FirstClosed(s, ts, i, i, lib) || !Closed(s, ts[i], "</qos_library>") || NameOf(TextOf(s, ts[i])) != lib;
    } else {
      NoneClosed(s, ts, lib);
    }
  }

  lemma NoneClosed(s: string, ts: seq<Span>, lib: string)
    requires forall t <- ts :: t.at <= t.end < |s|
    ensures forall j :: !FirstClosed(s, ts, |ts|, j, lib)
  {
  }

  lemma LaterClosed(s: string, ts: seq<Span>, i: nat, k: nat, lib: string)
    requires k == i + 1 <= |ts| && forall t <- ts :: t.at <= t.end < |s|
    ensures if NameOf(TextOf(s, ts[i])) == lib && Closed(s, ts[i], "</qos_library>") then
              forall j :: FirstClosed(s, ts, i, j, lib) <==> j == i
            else forall j :: FirstClosed(s, ts, i, j, lib) <==> FirstClosed(s, ts, k, j, lib)
  {
    hide NameOf, Closed;
  }

  // Tag j is the first from tag i on of the profile's name.
  ghost predicate FirstNamed(s: string, ts: seq<Span>, i: nat, j: int, profile: string)
    requires forall t <- ts :: t.at <= t.end < |s|
  {
    && i <= j < |ts| && NameOf(TextOf(s, ts[j])) == profile
    && forall h :: i <= h < j ==> NameOf(TextOf(s, ts[h])) != profile
  }

  // From the start of that tag to the end of its closing marker, or nothing when there is no such tag or
  // nothing closes it.
  ghost predicate ProfileIs(s: string, ts: seq<Span>, i: nat, profile: string, r: Option<Span>)
    requires forall t <- ts :: t.at <= t.end < |s|
  {
    match r
    case Some(b) =>
      exists j ::
        FirstNamed(s, ts, i, j, profile) && b.at == ts[j].at && Closes(s, ts[j].end, "</qos_profile>", b.end - 14)
    case None => forall j :: FirstNamed(s, ts, i, j, profile) ==> !Closed(s, ts[j], "</qos_profile>")
  }

  lemma ProfileExactly(block: string, profile: string, ts: seq<Span>)
    requires Tags(block, "<qos_profile", ts)
    ensures forall t <- ts :: t.at <= t.end < |block|
    ensures ProfileIs(block, ts, 0, profile, FindProfile(block, profile))
  {
    hide FindProfile;
    TagsIn(block, "<qos_profile", ts);
    assert block[0..] == block;
    ShiftNone(FindProfile(block, profile));
    ProfileFromTag(block, profile, ts, 0, 0);
  }

  lemma {:induction false} ProfileFromTag(s: string, profile: string, ts: seq<Span>, i: nat, pos: nat)
    requires Tags(s, "<qos_profile", ts) && i <= |ts| && Looks(ts, i, pos) && pos <= |s|
    requires forall t <- ts :: t.at <= t.end < |s|
    ensures ProfileIs(s, ts, i, profile, ShiftSpan(FindProfile(s[pos..], profile), pos))
    decreases |ts| - i
  {
    hide FindProfile, NameOf, Tags, NextTag, Closes, NextClose, ShiftSpan, Closed;
    NextIs(s, "<qos_profile", ts, i, pos);
    ProfileFrom(s, pos, if i < |ts| then Some(ts[i]) else None, profile);
    if i < |ts| {
      if NameOf(TextOf(s, ts[i])) == profile {
        CloseFound(s, ts[i], "</qos_profile>");
        assert FirstNamed(s, ts, i, i, profile);
      } else {
        ProfileFromTag(s, profile, ts, i + 1, ts[i].end + 1);
        forall j ensures FirstNamed(s, ts, i, j, profile) <==> FirstNamed(s, ts, i + 1, j, profile) {}
      }
    }
  }

  // ---------- Names in a tag ----------

  predicate IsQuote(c: char) { c == '"' || c == '\'' }

  // The first name= is at n.
  predicate NameHere(o: string, n: int) {
    MatchAt(o, "name=", n) && forall i :: 0 <= i < n ==> !MatchAt(o, "name=", i)
  }

  // The first quote from position a on is at q.
  predicate QuoteHere(o: string, a: int, q: int) {
    0 <= a <= q < |o| && IsQuote(o[q]) && forall i :: a <= i < q ==> !IsQuote(o[i])
  }

  // And the next of its kind is at e.
  predicate EndHere(o: string, q: int, e: int) {
    0 <= q < e < |o| && o[e] == o[q] && forall i :: q < i < e ==> o[i] != o[q]
  }

  // The value in quotes after the first name=: from the first quote after it to the next one of its kind.
  predicate NameAt(o: string, n: int, q: int, e: int) {
    NameHere(o, n) && QuoteHere(o, n + 5, q) && EndHere(o, q, e)
  }

  lemma {:induction false} FirstQuote(s: string)
    ensures match FindQuote(s)
            case Some(k) => IsQuote(s[k]) && forall i :: 0 <= i < k ==> !IsQuote(s[i])
            case None => forall i :: 0 <= i < |s| ==> !IsQuote(s[i])
  {
    if s != [] && !IsQuote(s[0]) {
      FirstQuote(s[1..]);
      forall i | 0 < i < |s| ensures s[i] == s[1..][i - 1] {}
    }
  }

  lemma NameHereExactly(o: string, n: nat)
    ensures Find(o, "name=") == Some(n) <==> NameHere(o, n)
    ensures NameHere(o, n) ==> n + 5 <= |o|
  {
    FindFromExactly(o, "name=", 0, n);
    assert o[0..] == o;
    hide Find;
  }

  lemma QuoteHereExactly(o: string, a: nat, q: nat)
    requires a <= |o|
    ensures QuoteHere(o, a, q) <==> a <= q && FindQuote(o[a..]) == Some(q - a)
  {
    hide IsQuote;
    var rest := o[a..];
    FirstQuote(rest);
    forall i | a <= i < |o| ensures rest[i - a] == o[i] {}
    if a <= q < |o| { assert rest[q - a] == o[q]; }
  }

  lemma EndHereExactly(o: string, q: nat, e: nat)
    requires q < |o|
    ensures EndHere(o, q, e) <==> q < e && Find(o[q + 1..], [o[q]]) == Some(e - (q + 1))
  {
    hide Find;
    FindFromExactly(o, [o[q]], q + 1, e);
    forall i: nat | i < |o| ensures MatchAt(o, [o[q]], i) <==> o[i] == o[q] { assert o[i..i + 1] == [o[i]]; }
    if e >= |o| { NoMatchOne(o, o[q], e); }
  }

  lemma NoMatchOne(o: string, c: char, e: nat)
    requires e >= |o|
    ensures !MatchAt(o, [c], e)
  {
  }

  lemma FindNameUnfold(o: string)
    ensures FindName(o) ==
            match Find(o, "name=")
            case None => Absent
            case Some(n) =>
              match FindQuote(o[n + 5..])
              case None => Malformed
              case Some(k) =>
                match Find(o[n + 5 + k + 1..], [o[n + 5 + k]])
                case None => Malformed
                case Some(e) => Value(n + 5 + k + 1, n + 5 + k + 1 + e)
  {
    hide Find, FindQuote;
  }

  lemma NameFound(o: string, n: nat, q: nat, e: nat)
    requires NameAt(o, n, q, e)
    ensures FindName(o) == Value(q + 1, e) && q < e <= |o|
  {
    hide Find, FindQuote, FindName, NameHere, QuoteHere, EndHere;
    NameHereExactly(o, n);
    QuoteHereExactly(o, n + 5, q);
    QuoteIn(o, n + 5, q);
    EndHereExactly(o, q, e);
    FindNameUnfold(o);
  }

  lemma QuoteIn(o: string, a: int, q: int)
    ensures QuoteHere(o, a, q) ==> 0 <= a <= q < |o|
  {
  }

  lemma NameIs(o: string)
    ensures FindName(o).Value? ==> exists n, q, e :: NameAt(o, n, q, e)
  {
    hide Find, FindQuote, FindName, NameHere, QuoteHere, EndHere;
    FindNameUnfold(o);
    if FindName(o).Value? {
      var n := Find(o, "name=").value;
      var q := n + 5 + FindQuote(o[n + 5..]).value;
      var e := q + 1 + Find(o[q + 1..], [o[q]]).value;
      NameHereExactly(o, n);
      QuoteHereExactly(o, n + 5, q);
      EndHereExactly(o, q, e);
      assert NameAt(o, n, q, e);
    }
  }

  // The name of a tag is that value, and empty when there is none.
  lemma NameExactly(o: string)
    ensures (exists n, q, e :: NameAt(o, n, q, e)) || NameOf(o) == ""
    ensures forall n, q, e :: NameAt(o, n, q, e) ==> 0 <= q < e <= |o| && NameOf(o) == o[q + 1..e]
  {
    hide FindName, QuoteHere, EndHere;
    NameIs(o);
    forall n, q, e | NameAt(o, n, q, e) ensures 0 <= q < e <= |o| && NameOf(o) == o[q + 1..e] {
      QuoteIn(o, n + 5, q);
      EndIn(o, q, e);
      NameFound(o, n, q, e);
    }
  }

  lemma EndIn(o: string, q: int, e: int)
    ensures EndHere(o, q, e) ==> 0 <= q < e < |o|
  {
  }

  // A tag mentions x where name= is followed by x in quotes of a kind.
  lemma MentionsExactly(o: string, x: string)
    ensures Mentions(o, x) <==> exists i, c :: IsQuote(c) && MatchAt(o, "name=" + [c] + x + [c], i)
  {
    hide MatchAt, Find;
    var dq, sq := "name=\"" + x + "\"", "name='" + x + "'";
    FindSpec(o, dq);
    FindSpec(o, sq);
    assert "name=" + ['"'] + x + ['"'] == dq && "name=" + ['\''] + x + ['\''] == sq;
    if i, c :| IsQuote(c) && MatchAt(o, "name=" + [c] + x + [c], i) {
      assert MatchAt(o, if c == '"' then dq else sq, i);
    }
  }
}
