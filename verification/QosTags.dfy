// The tags the repository writes itself (RtpDdsGateway/src/qos_xml_helpers.cpp, lines 278-282, and
// qos_store.cpp, lines 736-740): which names the substring test finds in them.
module QosTags {
  import opened Text
  import opened QosXml
  import opened QosDoc
  import opened QosNaming
  import opened QosLaws

  predicate QuoteFree(s: string) {
    forall i :: 0 <= i < |s| ==> !IsQuote(s[i])
  }

  function Quoted(x: string): string { ['"'] + x + ['"'] }

  // The substring test succeeds exactly when the quoted name follows name= somewhere.
  lemma MentionPlace(o: string, x: string)
    requires Mentions(o, x)
    ensures exists i, c :: IsQuote(c) && MatchAt(o, NAME + [c] + x + [c], i)
  {
    hide MatchAt, Find;
    var dq, sq := "name=\"" + x + "\"", "name='" + x + "'";
    FindSpec(o, dq);
    FindSpec(o, sq);
    assert NAME + ['"'] + x + ['"'] == dq && NAME + ['\''] + x + ['\''] == sq;
  }

  lemma PatternParts(name: string, c: char, x: string)
    ensures var pat, k := name + [c] + x + [c], |name|;
            |pat| == k + 2 + |x| && pat[..k] == name && pat[k] == c && pat[k + 1..k + 1 + |x|] == x
            && pat[k + 1 + |x|] == c
  {
    var pat, pre := name + [c] + x + [c], name + [c];
    assert pre[..|name|] == name && pre[|name|] == c;
    assert pat[..|pre|] == pre && pat[|pre|..] == x + [c];
    assert pat[..|name|] == pre[..|name|];
    assert pat[|pre|..|pre| + |x|] == pat[|pre|..][..|x|] == x;
  }

  lemma SubSlice(o: string, i: nat, n: nat, a: nat, b: nat)
    requires a <= b <= n && i + n <= |o|
    ensures o[i..i + n][a..b] == o[i + a..i + b]
  {
    var u, v := o[i..i + n][a..b], o[i + a..i + b];
    forall k | 0 <= k < b - a ensures u[k] == v[k] { assert u[k] == o[i..i + n][a + k] == o[i + a + k]; }
  }

  lemma PlaceQuotes(o: string, x: string, i: int, c: char)
    requires IsQuote(c) && MatchAt(o, NAME + [c] + x + [c], i)
    ensures 0 <= i && i + 7 + |x| <= |o| && o[i + 5] == c && o[i + 6 + |x|] == c
    ensures o[i..i + 5] == NAME && o[i + 6..i + 6 + |x|] == x
  {
    var pat := NAME + [c] + x + [c];
    PatternParts(NAME, c, x);
    assert |NAME| == 5;
    hide NAME, IsQuote;
    var n := |pat|;
    assert o[i..i + n] == pat;
    SubSlice(o, i, n, 0, 5);
    SubSlice(o, i, n, 6, 6 + |x|);
    assert o[i..i + n][5] == o[i + 5] && o[i..i + n][6 + |x|] == o[i + 6 + |x|];
  }

  // The quote after q closes what q opens.
  lemma SpanOf(o: string, x: string, i: int, c: char, q: nat, r: nat)
    requires QuoteFree(x) && IsQuote(c) && MatchAt(o, NAME + [c] + x + [c], i)
    requires i + 5 == q < r < |o| && IsQuote(o[r]) && forall k :: q < k < r ==> !IsQuote(o[k])
    ensures x == o[q + 1..r]
  {
    PlaceQuotes(o, x, i, c);
    NoQuoteBetween(o, x, q);
  }

  // Only one quoted value in the tag.
  lemma OneValue(pre: string, n: string, rest: string, x: string)
    requires QuoteFree(pre) && QuoteFree(n) && QuoteFree(rest) && QuoteFree(x)
    requires Mentions(pre + Quoted(n) + rest, x)
    ensures x == n
  {
    var o := pre + Quoted(n) + rest;
    var p, q := |pre|, |pre| + 1 + |n|;
    forall k | 0 <= k < |o| && k != p && k != q ensures !IsQuote(o[k]) {
      if k < p { assert o[k] == pre[k]; }
      else if k < q { assert o[k] == n[k - p - 1]; }
      else { assert o[k] == rest[k - q - 1]; }
    }
    assert o[p + 1..q] == n && o[p] == '"' && o[q] == '"';
    hide Mentions, MatchAt, NAME, Quoted, QuoteFree;
    MentionPlace(o, x);
    var i, c :| IsQuote(c) && MatchAt(o, NAME + [c] + x + [c], i);
    PlaceQuotes(o, x, i, c);
    SpanOf(o, x, i, c, p, q);
  }

  lemma QuotesOfTwo(pre: string, n: string, mid: string, b: string, rest: string)
    requires QuoteFree(pre) && QuoteFree(n) && QuoteFree(mid) && QuoteFree(b) && QuoteFree(rest)
    ensures var o, p1 := pre + Quoted(n) + mid + Quoted(b) + rest, |pre|;
            var p2 := p1 + 1 + |n|;
            var p3 := p2 + 1 + |mid|;
            var p4 := p3 + 1 + |b|;
            && p4 < |o| && IsQuote(o[p1]) && IsQuote(o[p2]) && IsQuote(o[p3]) && IsQuote(o[p4])
            && o[p1 + 1..p2] == n && o[p2 + 1..p3] == mid && o[p3 + 1..p4] == b
            && forall k :: 0 <= k < |o| && k != p1 && k != p2 && k != p3 && k != p4 ==> !IsQuote(o[k])
  {
    var o, p1 := pre + Quoted(n) + mid + Quoted(b) + rest, |pre|;
    var p2 := p1 + 1 + |n|;
    var p3 := p2 + 1 + |mid|;
    var p4 := p3 + 1 + |b|;
    assert o[p1] == o[p2] == o[p3] == o[p4] == '"';
    assert o[p1 + 1..p2] == n && o[p2 + 1..p3] == mid && o[p3 + 1..p4] == b;
    forall k | 0 <= k < |o| && k != p1 && k != p2 && k != p3 && k != p4 ensures !IsQuote(o[k]) {
      if k < p1 { assert o[k] == pre[k]; }
      else if k < p2 { assert o[k] == n[k - p1 - 1]; }
      else if k < p3 { assert o[k] == mid[k - p2 - 1]; }
      else if k < p4 { assert o[k] == b[k - p3 - 1]; }
      else { assert o[k] == rest[k - p4 - 1]; }
    }
  }

  // A tag with four quotes: the value found is one of the three between them.
  lemma OneOfThree(o: string, x: string, p1: nat, p2: nat, p3: nat, p4: nat)
    requires QuoteFree(x) && Mentions(o, x) && p1 < p2 < p3 < p4 < |o|
    requires IsQuote(o[p1]) && IsQuote(o[p2]) && IsQuote(o[p3]) && IsQuote(o[p4])
    requires forall k :: 0 <= k < |o| && k != p1 && k != p2 && k != p3 && k != p4 ==> !IsQuote(o[k])
    ensures x == o[p1 + 1..p2] || x == o[p2 + 1..p3] || x == o[p3 + 1..p4]
  {
    hide Mentions, MatchAt, NAME, QuoteFree, IsQuote;
    MentionPlace(o, x);
    var i, c :| IsQuote(c) && MatchAt(o, NAME + [c] + x + [c], i);
    PlaceQuotes(o, x, i, c);
    if i + 5 == p1 { SpanOf(o, x, i, c, p1, p2); }
    else if i + 5 == p2 { SpanOf(o, x, i, c, p2, p3); }
    else { SpanOf(o, x, i, c, p3, p4); }
  }

  // Two values, the second after mid.
  lemma TwoValues(pre: string, n: string, mid: string, b: string, rest: string, x: string)
    requires QuoteFree(pre) && QuoteFree(n) && QuoteFree(mid) && QuoteFree(b) && QuoteFree(rest) && QuoteFree(x)
    requires Mentions(pre + Quoted(n) + mid + Quoted(b) + rest, x)
    ensures x == n || x == mid || x == b
  {
    hide Mentions, Quoted, QuoteFree, IsQuote;
    QuotesOfTwo(pre, n, mid, b, rest);
    var p1 := |pre|;
    var p2 := p1 + 1 + |n|;
    var p3 := p2 + 1 + |mid|;
    OneOfThree(pre + Quoted(n) + mid + Quoted(b) + rest, x, p1, p2, p3, p3 + 1 + |b|);
  }

  lemma NoQuoteBetween(o: string, x: string, q: nat)
    requires q + 1 + |x| <= |o| && o[q + 1..q + 1 + |x|] == x && QuoteFree(x)
    ensures forall k :: q < k < q + 1 + |x| ==> !IsQuote(o[k])
  {
    forall k | q < k < q + 1 + |x| ensures o[k] == x[k - q - 1] {}
  }

  const BASE := " base_name="

  // An opening tag as printed for a profile, with its base profile if it has one.
  function PrintedAttrs(name: string, base: string): string {
    " name=\"" + name + "\"" + (if base == "" then "" else " base_name=\"" + base + "\"")
  }

  lemma MarkerQuoteFree(marker: string)
    requires marker == LIB || marker == PROF
    ensures QuoteFree((marker + " ") + NAME)
  {
  }

  lemma OpenNamed(marker: string, name: string, rest: string)
    ensures Open(marker, " name=\"" + name + "\"" + rest) == ((marker + " ") + NAME) + Quoted(name) + (rest + ">")
  {
    AddedShape(marker, name, rest + ">");
    hide NAME;
    assert Open(marker, " name=\"" + name + "\"" + rest) == marker + " name=\"" + name + "\"" + (rest + ">");
    assert (marker + " ") + NAME + (['"'] + name + ['"'] + (rest + ">")) ==
             ((marker + " ") + NAME) + Quoted(name) + (rest + ">");
  }

  // A tag with no other attribute is found under its own name only.
  lemma NameOnly(marker: string, name: string, x: string)
    requires (marker == LIB || marker == PROF) && NameFree(name) && QuoteFree(x)
    ensures var o := Open(marker, " name=\"" + name + "\"");
            NameOf(o) == name && (Mentions(o, x) <==> x == name)
  {
    hide Mentions, NameOf;
    NamedOpen(marker, name, "");
    FreeQuoteFree(name);
    assert " name=\"" + name + "\"" + "" == " name=\"" + name + "\"";
    OpenNamed(marker, name, "");
    MarkerQuoteFree(marker);
    if Mentions(Open(marker, " name=\"" + name + "\""), x) {
      OneValue((marker + " ") + NAME, name, "" + ">", x);
    }
  }

  lemma FreeQuoteFree(name: string)
    requires NameFree(name)
    ensures QuoteFree(name)
  {
  }

  lemma NamedOpen(marker: string, name: string, rest: string)
    requires (marker == LIB || marker == PROF) && NameFree(name)
    ensures var o := Open(marker, " name=\"" + name + "\"" + rest); NameOf(o) == name && Mentions(o, name)
  {
    hide NameOf, Mentions, NameFree;
    OpenNamed(marker, name, rest);
    AddedName(marker, name, rest + ">");
    hide NAME;
    assert ((marker + " ") + NAME) + Quoted(name) + (rest + ">") ==
             (marker + " ") + NAME + (['"'] + name + ['"'] + (rest + ">"));
  }

  // A printed profile tag is found under its name and under its base's name.
  lemma PrintedMentions(name: string, base: string, x: string)
    requires NameFree(name) && NameFree(base) && QuoteFree(x) && x != BASE
    ensures var o := Open(PROF, PrintedAttrs(name, base));
            NameOf(o) == name && (Mentions(o, x) <==> x == name || x == base)
  {
    hide Mentions, NameOf;
    var rest := " base_name=\"" + base + "\"";
    FreeQuoteFree(name);
    FreeQuoteFree(base);
    NamedOpen(PROF, name, rest);
    OpenNamed(PROF, name, rest);
    var pre := (PROF + " ") + NAME;
    BaseShape(pre, name, base);
    MarkerQuoteFree(PROF);
    var o := pre + Quoted(name) + BASE + Quoted(base) + ">";
    if Mentions(o, x) { TwoValues(pre, name, BASE, base, ">", x); }
    BaseMentioned(pre + Quoted(name), base);
  }

  lemma BaseShape(pre: string, name: string, base: string)
    ensures pre + Quoted(name) + (" base_name=\"" + base + "\"" + ">") == pre + Quoted(name) + BASE + Quoted(base) + ">"
  {
    assert " base_name=\"" == BASE + ['"'] && "\"" == ['"'];
    hide BASE;
    var h, q := pre + Quoted(name), ['"'];
    hide Quoted;
    assert h + (BASE + q + base + q + ">") == h + BASE + (q + base + q) + ">";
  }

  lemma BaseMentioned(pre: string, base: string)
    ensures Mentions(pre + BASE + Quoted(base) + ">", base)
  {
    hide Mentions;
    assert BASE == " base_" + NAME;
    var o, pat := pre + BASE + Quoted(base) + ">", NAME + ['"'] + base + ['"'];
    hide NAME, BASE;
    assert o == (pre + " base_") + pat + ">";
    MatchMiddle(pre + " base_", pat, ">");
    MentionsAt(o, |pre + " base_"|, '"', base);
  }

  // So it reads clearly under every name but that of its base.
  lemma PrintedClear(name: string, base: string, x: string)
    requires NameFree(name) && NameFree(base) && QuoteFree(x) && x != BASE
    ensures TagClear(Open(PROF, PrintedAttrs(name, base)), x) <==> x != base || x == name
  {
    hide Mentions, NameOf, Open, PrintedAttrs;
    PrintedMentions(name, base, x);
  }
}
