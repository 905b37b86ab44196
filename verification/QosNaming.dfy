// Forcing the name of a profile: the name attribute of the opening tag is overwritten or added.
module QosNaming {
  import opened Wrappers
  import opened Text
  import opened QosXml
  import opened QosDoc
  import opened QosReading

  const NAME := "name="

  predicate IsQuote(c: char) { c == '"' || c == '\'' }

  // No name= attribute at all, or a quoted value directly after the first one.
  predicate Nameable(attrs: string) {
    var o := Open(PROF, attrs);
    match FindName(o)
    case Absent => true
    case Malformed => false
    case Value(a, _) => a >= 6 && Find(o, NAME) == Some(a - 6)
  }

  // A name that can be written between quotes.
  predicate NameFree(name: string) {
    name != "" && '"' !in name && '\'' !in name && '<' !in name && '>' !in name
  }

  function NewAttrs(attrs: string, name: string): string {
    var o := RenameOpening(Open(PROF, attrs), name);
    if |o| > |PROF| then o[|PROF|..|o| - 1] else attrs
  }

  lemma FirstName(pre: string, t: string)
    requires forall i :: 0 <= i < |pre| ==> !MatchAt(pre + NAME, NAME, i)
    ensures Find(pre + NAME + t, NAME) == Some(|pre|)
  {
    var s := pre + NAME + t;
    forall i | 0 <= i < |pre| ensures !MatchAt(s, NAME, i) {
      MatchPrefix(pre + NAME, t, NAME, i);
    }
    assert s[|pre|..|pre| + 5] == NAME;
    FindIs(s, NAME, |pre|);
  }

  // A tag whose first name= is followed by the quoted name.
  lemma NamedTag(pre: string, c: char, name: string, rest: string)
    requires IsQuote(c) && c !in name
    requires forall i :: 0 <= i < |pre| ==> !MatchAt(pre + NAME, NAME, i)
    ensures var s := pre + NAME + ([c] + name + [c] + rest); NameOf(s) == name && Mentions(s, name)
  {
    hide MatchAt, Find;
    var t := [c] + name + [c] + rest;
    var s, q := pre + NAME + t, |pre| + 5;
    FirstName(pre, t);
    hide NAME;
    assert s[q..] == t && t[0] == c;
    assert s[q + 1..] == name + [c] + rest;
    FindChar(name, c, rest);
    assert s[q + 1..q + 1 + |name|] == name;
    assert s == pre + (NAME + [c] + name + [c]) + rest;
    assert MatchAt(s, NAME + [c] + name + [c], |pre|) by { MatchMiddle(pre, NAME + [c] + name + [c], rest); }
    MentionsAt(s, |pre|, c, name);
  }

  lemma MatchMiddle(pre: string, pat: string, post: string)
    ensures MatchAt(pre + pat + post, pat, |pre|)
  {
    assert (pre + pat + post)[|pre|..|pre| + |pat|] == pat;
  }

  lemma MentionsAt(s: string, at: nat, c: char, name: string)
    requires IsQuote(c) && MatchAt(s, NAME + [c] + name + [c], at)
    ensures Mentions(s, name)
  {
    hide MatchAt;
    if c == '"' {
      assert NAME + [c] + name + [c] == "name=\"" + name + "\"";
      FindSpec(s, "name=\"" + name + "\"");
    } else {
      assert NAME + [c] + name + [c] == "name='" + name + "'";
      FindSpec(s, "name='" + name + "'");
    }
  }

  lemma NameBefore(o: string, n: nat)
    requires Find(o, NAME) == Some(n)
    ensures n + 5 <= |o| && o[..n + 5] == o[..n] + NAME
    ensures forall i :: 0 <= i < n ==> !MatchAt(o[..n] + NAME, NAME, i)
  {
    FindSpec(o, NAME);
    hide Find;
    assert o[..n + 5] == o[..n] + o[n..n + 5];
    assert o == o[..n + 5] + o[n + 5..];
    forall i | 0 <= i < n ensures !MatchAt(o[..n] + NAME, NAME, i) {
      MatchPrefix(o[..n + 5], o[n + 5..], NAME, i);
    }
  }

  // The value found stands between two equal quotes.
  lemma ValueQuoted(o: string)
    requires FindName(o).Value?
    ensures var v := FindName(o);
            v.from >= 1 && IsQuote(o[v.from - 1]) && o[v.to] == o[v.from - 1] && o[v.from - 1] !in o[v.from..v.to]
  {
    var v := FindName(o);
    var c := o[v.from - 1];
    FindSpec(o[v.from..], [c]);
    hide Find;
    var rest := o[v.from..];
    assert rest[v.to - v.from..v.to - v.from + 1][0] == o[v.to];
    forall i | v.from <= i < v.to ensures o[i] != c {
      assert rest[i - v.from..i - v.from + 1] == [o[i]];
      assert !MatchAt(rest, [c], i - v.from);
    }
  }

  // Renaming a tag that has a quoted name.
  lemma RenameShape(o: string, name: string)
    requires |o| >= |PROF|
    ensures var v := FindName(o);
            && (v.Value? ==> RenameOpening(o, name) == o[..v.from] + name + o[v.to..])
            && (v.Absent? ==> RenameOpening(o, name) == o[..|PROF|] + " name=\"" + name + "\"" + o[|PROF|..])
            && (v.Malformed? ==> RenameOpening(o, name) == o)
  {
    hide FindName;
  }

  lemma Regroup3(a: string, b: string, c: string, d: string, e: string)
    ensures a + b + c + d + (c + e) == a + b + (c + d + c + e)
  {
  }

  lemma RenamePresent(o: string, name: string)
    requires |o| >= |PROF| && NameFree(name)
    requires FindName(o).Value? && FindName(o).from >= 6 && Find(o, NAME) == Some(FindName(o).from - 6)
    ensures NameOf(RenameOpening(o, name)) == name && Mentions(RenameOpening(o, name), name)
  {
    hide Find, FindName, NameOf, RenameOpening, Mentions, MatchAt;
    var a, b := FindName(o).from, FindName(o).to;
    RenameShape(o, name);
    ValueQuoted(o);
    NameBefore(o, a - 6);
    var c, pre, rest := o[a - 1], o[..a - 6], o[b + 1..];
    NamedTag(pre, c, name, rest);
    hide NAME, PROF, NameFree;
    assert o[..a] == o[..a - 1] + [c];
    assert o[b..] == [c] + rest;
    Regroup3(pre, NAME, [c], name, rest);
  }

  // Renaming a tag without one.
  lemma AddedName(marker: string, name: string, rest: string)
    requires (marker == LIB || marker == PROF) && NameFree(name)
    ensures var s := (marker + " ") + NAME + (['"'] + name + ['"'] + rest); NameOf(s) == name && Mentions(s, name)
  {
    hide NameOf, Mentions;
    var pre := marker + " ";
    forall i | 0 <= i < |pre| ensures !MatchAt(pre + NAME, NAME, i) {
      assert pre[i] != 'n';
      assert (pre + NAME)[i] == pre[i];
      Mismatch(pre + NAME, NAME, i, 0);
    }
    NamedTag(pre, '"', name, rest);
  }

  lemma RenameAbsent(attrs: string, name: string)
    requires FindName(Open(PROF, attrs)) == Absent && NameFree(name)
    ensures var r := RenameOpening(Open(PROF, attrs), name);
            r == Open(PROF, " name=\"" + name + "\"" + attrs) && NameOf(r) == name && Mentions(r, name)
  {
    hide FindName, NameOf, Mentions, RenameOpening, NameFree;
    var o := Open(PROF, attrs);
    RenameShape(o, name);
    assert o[..|PROF|] == PROF && o[|PROF|..] == attrs + ">";
    AddedName(PROF, name, attrs + ">");
    AddedShape(PROF, name, attrs + ">");
    hide PROF;
    Regroup2(PROF, " name=\"", name, "\"", attrs, ">");
  }

  lemma AddedShape(marker: string, name: string, rest: string)
    ensures marker + " name=\"" + name + "\"" + rest == (marker + " ") + NAME + (['"'] + name + ['"'] + rest)
  {
    assert " name=\"" == " " + NAME + ['"'] && "\"" == ['"'];
    hide NAME;
    var q := ['"'];
    assert marker + (" " + NAME + q) + name + q + rest == (marker + " ") + NAME + (q + name + q + rest);
  }

  lemma Regroup2(a: string, b: string, c: string, d: string, e: string, f: string)
    ensures a + b + c + d + (e + f) == a + (b + c + d + e) + f
  {
  }

  lemma NewAttrsIs(attrs: string, name: string, z: string)
    requires RenameOpening(Open(PROF, attrs), name) == Open(PROF, z)
    ensures NewAttrs(attrs, name) == z
  {
    hide RenameOpening;
    assert Open(PROF, z)[|PROF|..] == z + ">";
  }

  // Where the value of a quoted name attribute stands in a tag.
  lemma ValueInside(attrs: string)
    requires var v := FindName(Open(PROF, attrs));
             v.Value? && v.from >= 6 && Find(Open(PROF, attrs), NAME) == Some(v.from - 6)
    ensures var v := FindName(Open(PROF, attrs)); |PROF| <= v.from <= v.to < |PROF| + |attrs|
  {
    var o := Open(PROF, attrs);
    var v := FindName(o);
    ValueQuoted(o);
    NameBefore(o, v.from - 6);
    hide FindName, Find, NameFree;
    assert o[v.from - 2] == o[..v.from - 1][v.from - 2] == '=';
    forall i | 0 <= i < |PROF| ensures o[i] != '=' {
      assert o[i] == PROF[i];
    }
    assert o[|o| - 1] == '>';
  }

  lemma OpenParts(attrs: string, a: nat, b: nat, name: string)
    requires |PROF| <= a <= b < |PROF| + |attrs|
    ensures var o := Open(PROF, attrs);
            o[..a] + name + o[b..] == Open(PROF, attrs[..a - |PROF|] + name + attrs[b - |PROF|..])
  {
    var o, x, y := Open(PROF, attrs), attrs[..a - |PROF|], attrs[b - |PROF|..];
    assert o[..a] == PROF + x;
    assert o[b..] == y + ">";
    hide PROF;
    assert PROF + x + name + (y + ">") == PROF + (x + name + y) + ">";
  }

  lemma RenameOk(attrs: string, name: string)
    requires AttrsOk(attrs) && Nameable(attrs) && NameFree(name)
    ensures var z := NewAttrs(attrs, name);
            && RenameOpening(Open(PROF, attrs), name) == Open(PROF, z)
            && AttrsOk(z) && NameIn(PROF, z) == name && Mentions(Open(PROF, z), name)
  {
    hide FindName, RenameOpening, NameOf, Mentions, Find, NewAttrs, Open;
    var v := FindName(Open(PROF, attrs));
    if v.Absent? {
      RenameAbsent(attrs, name);
      NewAttrsIs(attrs, name, " name=\"" + name + "\"" + attrs);
    } else {
      assert |Open(PROF, attrs)| >= |PROF| by { OpenLength(attrs); }
      RenamePresent(Open(PROF, attrs), name);
      RenameShape(Open(PROF, attrs), name);
      ValueInside(attrs);
      OpenParts(attrs, v.from, v.to, name);
      NewAttrsIs(attrs, name, attrs[..v.from - |PROF|] + name + attrs[v.to - |PROF|..]);
    }
  }

  lemma OpenLength(attrs: string)
    ensures |Open(PROF, attrs)| >= |PROF|
  {
  }
}
