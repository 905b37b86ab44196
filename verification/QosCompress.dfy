// White-space compression of QoS XML (RtpDdsGateway/src/qos_xml_helpers.cpp, lines 398-462).
module QosCompress {

  // Before the first tag; inside a tag, perhaps just after a space; between tags.
  datatype Mode = Start | Tag(spaced: bool) | Content

  predicate Ignored(c: char) { c == '\n' || c == '\r' || c == '\t' }

  predicate IsBlank(c: char) { Ignored(c) || c == ' ' }

  function Next(m: Mode, c: char): Mode {
    if Ignored(c) then m
    else if c == '<' then Tag(false)
    else if c == '>' then Content
    else if m.Tag? then Tag(c == ' ')
    else m
  }

  predicate Kept(m: Mode, c: char) {
    && !Ignored(c)
    && (c == ' ' ==> m != Content && m != Tag(true))
  }

  // What is kept of s, and the mode after it.
  function Squeeze(m: Mode, s: string): string
    decreases |s|
  {
    if s == "" then "" else (if Kept(m, s[0]) then [s[0]] else "") + Squeeze(Next(m, s[0]), s[1..])
  }

  function ModeAfter(m: Mode, s: string): Mode
    decreases |s|
  {
    if s == "" then m else ModeAfter(Next(m, s[0]), s[1..])
  }

  function Compress(s: string): string { Squeeze(Start, s) }

  function Solid(s: string): string {
    if s == "" then "" else (if IsBlank(s[0]) then "" else [s[0]]) + Solid(s[1..])
  }

  predicate Blank(s: string) {
    forall i :: 0 <= i < |s| ==> IsBlank(s[i])
  }

  // ---------- The original's loop ----------

  function ModeOf(inTag: bool, inContent: bool, prevWasSpace: bool): Mode {
    if inTag then Tag(prevWasSpace) else if inContent then Content else Start
  }

  lemma SqueezeStep(m: Mode, s: string, i: nat, result: string)
    requires i < |s|
    ensures result + Squeeze(m, s[i..]) ==
            (if Kept(m, s[i]) then result + [s[i]] else result) + Squeeze(Next(m, s[i]), s[i + 1..])
  {
    assert s[i..][1..] == s[i + 1..];
    var t := Squeeze(Next(m, s[i]), s[i + 1..]);
    hide Squeeze;
    assert result + ([s[i]] + t) == result + [s[i]] + t;
    assert result + ("" + t) == result + t;
    assert Squeeze(m, s[i..]) == (if Kept(m, s[i]) then [s[i]] else "") + t by { SqueezeUnfold(m, s[i..]); }
  }

  lemma SqueezeUnfold(m: Mode, s: string)
    requires s != ""
    ensures Squeeze(m, s) == (if Kept(m, s[0]) then [s[0]] else "") + Squeeze(Next(m, s[0]), s[1..])
  {
    hide Kept, Next;
  }

  method CompressXml(xml: string) returns (result: string)
    ensures result == Compress(xml)
  {
    if xml == "" { return xml; }
    hide Squeeze;
    result := "";
    var inTag, inContent, prevWasSpace := false, false, false;
    var i := 0;
    while i < |xml|
      invariant i <= |xml| && !(inTag && inContent)
      invariant result + Squeeze(ModeOf(inTag, inContent, prevWasSpace), xml[i..]) == Compress(xml)
    {
      var c := xml[i];
      SqueezeStep(ModeOf(inTag, inContent, prevWasSpace), xml, i, result);
      i := i + 1;
      if c == '\n' || c == '\r' || c == '\t' { continue; }
      if c == '<' {
        inTag, inContent, prevWasSpace := true, false, false;
        result := result + [c];
        continue;
      }
      if c == '>' {
        inTag, inContent, prevWasSpace := false, true, false;
        result := result + [c];
        continue;
      }
      if inTag {
        if c == ' ' {
          if !prevWasSpace {
            result := result + [c];
            prevWasSpace := true;
          }
        } else {
          result := result + [c];
          prevWasSpace := false;
        }
        continue;
      }
      if inContent {
        if c == ' ' { continue; }
        result := result + [c];
        continue;
      }
      result := result + [c];
    }
  }

  // ---------- Laws ----------

  // One character more in front.
  lemma SqueezeFirst(m: Mode, s: string, a: string, b: string)
    requires a != "" && s == a + b
    ensures s != "" && s[0] == a[0] && s[1..] == a[1..] + b
    ensures Squeeze(m, s) == (if Kept(m, a[0]) then [a[0]] else "") + Squeeze(Next(m, a[0]), a[1..] + b)
    ensures ModeAfter(m, s) == ModeAfter(Next(m, a[0]), a[1..] + b)
  {
    hide Kept, Next;
    assert s[1..] == a[1..] + b;
  }

  lemma SqueezeOne(m: Mode, a: string)
    requires a != ""
    ensures Squeeze(m, a) == (if Kept(m, a[0]) then [a[0]] else "") + Squeeze(Next(m, a[0]), a[1..])
    ensures ModeAfter(m, a) == ModeAfter(Next(m, a[0]), a[1..])
  {
    hide Kept, Next;
  }

  lemma SqueezeNothing(m: Mode)
    ensures Squeeze(m, "") == "" && ModeAfter(m, "") == m
  {
  }

  lemma Reassociate(x: string, y: string, z: string)
    ensures x + (y + z) == (x + y) + z
  {
  }

  lemma {:induction false} SqueezeConcat(m: Mode, a: string, b: string)
    ensures Squeeze(m, a + b) == Squeeze(m, a) + Squeeze(ModeAfter(m, a), b)
    ensures ModeAfter(m, a + b) == ModeAfter(ModeAfter(m, a), b)
    decreases |a|
  {
    hide Squeeze, ModeAfter, Kept, Next;
    if a == "" {
      assert a + b == b;
      SqueezeNothing(m);
      assert Squeeze(m, a) + Squeeze(m, b) == Squeeze(m, b);
    } else {
      var m', rest := Next(m, a[0]), a[1..];
      SqueezeConcat(m', rest, b);
      SqueezeFirst(m, a + b, a, b);
      SqueezeOne(m, a);
      Reassociate(if Kept(m, a[0]) then [a[0]] else "", Squeeze(m', rest), Squeeze(ModeAfter(m', rest), b));
    }
  }

  // Squeezed text squeezes to itself, and leaves the same mode behind.
  lemma {:induction false} SqueezeTwice(m: Mode, s: string)
    ensures Squeeze(m, Squeeze(m, s)) == Squeeze(m, s)
    ensures ModeAfter(m, Squeeze(m, s)) == ModeAfter(m, s)
    decreases |s|
  {
    if s != "" {
      var c, t := s[0], Squeeze(Next(m, s[0]), s[1..]);
      SqueezeTwice(Next(m, c), s[1..]);
      if Kept(m, c) {
        assert ([c] + t)[1..] == t;
      } else {
        assert Next(m, c) == m && "" + t == t;
      }
    }
  }

  lemma Idempotent(s: string)
    ensures Compress(Compress(s)) == Compress(s)
  {
    SqueezeTwice(Start, s);
  }

  lemma {:induction false} SolidKept(m: Mode, s: string)
    ensures Solid(Squeeze(m, s)) == Solid(s)
    decreases |s|
  {
    if s != "" {
      var c, t := s[0], Squeeze(Next(m, s[0]), s[1..]);
      SolidKept(Next(m, c), s[1..]);
      if Kept(m, c) {
        assert ([c] + t)[1..] == t;
      } else {
        assert "" + t == t;
      }
    }
  }

  // Nothing but white space is lost.
  lemma CompressKeepsText(s: string)
    ensures Solid(Compress(s)) == Solid(s)
  {
    SolidKept(Start, s);
  }

  // Between tags exactly the white space vanishes.
  lemma {:induction false} BlankVanishes(s: string)
    ensures Squeeze(Content, s) == "" <==> Blank(s)
    ensures Blank(s) ==> ModeAfter(Content, s) == Content
    decreases |s|
  {
    if s != "" {
      if IsBlank(s[0]) {
        BlankVanishes(s[1..]);
        assert Blank(s) <==> Blank(s[1..]) by { forall i | 0 < i < |s| ensures s[i] == s[1..][i - 1] {} }
      }
    }
  }

  // Inside a tag a run of white space shrinks to one space, or to nothing when it has none or
  // follows one.
  lemma {:induction false} BlanksInTag(s: string, spaced: bool)
    requires Blank(s)
    ensures Squeeze(Tag(spaced), s) == if !spaced && ' ' in s then " " else ""
    ensures ModeAfter(Tag(spaced), s) == Tag(spaced || ' ' in s)
    decreases |s|
  {
    if s != "" {
      assert s == [s[0]] + s[1..];
      BlanksInTag(s[1..], spaced || s[0] == ' ');
    }
  }

  lemma BlanksBetweenTags(a: string, u: string, w: string, v: string, c: string)
    requires ModeAfter(Start, a) == Content
    requires ModeAfter(Content, u) == Content && ModeAfter(Content, w) == Content && ModeAfter(Content, v) == Content
    ensures Compress(a + (u + w + v) + c) == Compress(a + w + c) <==> Blank(u) && Blank(v)
  {
    hide Squeeze, ModeAfter, Blank;
    BlankVanishes(u);
    BlankVanishes(v);
    SqueezeConcat(Start, a, u + w + v);
    SqueezeConcat(Start, a + (u + w + v), c);
    SqueezeConcat(Content, u + w, v);
    SqueezeConcat(Content, u, w);
    SqueezeConcat(Start, a, w);
    SqueezeConcat(Start, a + w, c);
    SameLength(Squeeze(Start, a), Squeeze(Content, u), Squeeze(Content, w), Squeeze(Content, v), Squeeze(Content, c));
  }

  lemma SameLength(a: string, u: string, w: string, v: string, c: string)
    ensures a + (u + w + v) + c == a + w + c <==> u == "" && v == ""
  {
    if a + (u + w + v) + c == a + w + c {
      assert |a + (u + w + v) + c| == |a| + |u| + |w| + |v| + |c|;
    }
  }

  lemma AfterTag(m: Mode, s: string)
    ensures ModeAfter(m, s + ">") == Content
  {
    SqueezeConcat(m, s, ">");
    hide Next;
    assert ModeAfter(ModeAfter(m, s), ">") == Content by { OneGt(ModeAfter(m, s)); }
  }

  lemma OneGt(m: Mode)
    ensures ModeAfter(m, ">") == Content
  {
    assert ">"[1..] == "";
    assert ModeAfter(Next(m, '>'), "") == Content;
  }
}
