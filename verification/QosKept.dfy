// Which characters compression keeps, position by position.
module QosKept {
  import opened QosCompress

  predicate Bracket(c: char) { c == '<' || c == '>' }

  predicate LineOrTab(c: char) { c == '\n' || c == '\r' || c == '\t' }

  // The last bracket before position i is c.
  predicate After(s: string, i: nat, c: char)
    requires i <= |s|
  {
    exists k :: 0 <= k < i && s[k] == c && forall h :: k < h < i ==> !Bracket(s[h])
  }

  // The last character before position i that is no tab or line end is a space.
  predicate AfterSpace(s: string, i: nat)
    requires i <= |s|
  {
    exists k :: 0 <= k < i && s[k] == ' ' && forall h :: k < h < i ==> LineOrTab(s[h])
  }

  // Tabs and line ends go. Spaces between tags go, and in a tag those that follow a space; before
  // the first bracket they stay.
  predicate Survives(s: string, i: nat)
    requires i < |s|
  {
    && !LineOrTab(s[i])
    && (s[i] == ' ' ==> !After(s, i, '>') && !(After(s, i, '<') && AfterSpace(s, i)))
  }

  // r is made of the surviving characters of s, at the positions ks in order.
  predicate Selected(s: string, ks: seq<nat>, r: string) {
    && |r| == |ks|
    && (forall n :: 0 <= n < |ks| ==> ks[n] < |s| && r[n] == s[ks[n]])
    && (forall n, h :: 0 <= n < h < |ks| ==> ks[n] < ks[h])
    && (forall i :: 0 <= i < |s| ==> (i in ks <==> Survives(s, i)))
  }

  // ---------- One character more ----------

  lemma AfterLast(t: string, c: char, d: char)
    requires Bracket(d)
    ensures After(t + [c], |t| + 1, d) <==> c == d || (!Bracket(c) && After(t, |t|, d))
  {
    var s := t + [c];
    if c == d {
      assert s[|t|] == d;
    } else if !Bracket(c) && After(t, |t|, d) {
      var k :| 0 <= k < |t| && t[k] == d && forall h :: k < h < |t| ==> !Bracket(t[h]);
      assert s[k] == d;
    }
    if After(s, |t| + 1, d) {
      var k :| 0 <= k < |t| + 1 && s[k] == d && forall h :: k < h < |t| + 1 ==> !Bracket(s[h]);
      if k < |t| {
        assert !Bracket(s[|t|]);
        assert t[k] == d;
        forall h | k < h < |t| ensures !Bracket(t[h]) { assert t[h] == s[h]; }
      }
    }
  }

  lemma AfterSpaceLast(t: string, c: char)
    ensures AfterSpace(t + [c], |t| + 1) <==> c == ' ' || (LineOrTab(c) && AfterSpace(t, |t|))
  {
    var s := t + [c];
    if c == ' ' {
      assert s[|t|] == ' ';
    } else if LineOrTab(c) && AfterSpace(t, |t|) {
      var k :| 0 <= k < |t| && t[k] == ' ' && forall h :: k < h < |t| ==> LineOrTab(t[h]);
      assert s[k] == ' ';
    }
    if AfterSpace(s, |t| + 1) {
      var k :| 0 <= k < |t| + 1 && s[k] == ' ' && forall h :: k < h < |t| + 1 ==> LineOrTab(s[h]);
      if k < |t| {
        assert LineOrTab(s[|t|]);
        assert t[k] == ' ';
        forall h | k < h < |t| ensures LineOrTab(t[h]) { assert t[h] == s[h]; }
      }
    }
  }

  lemma AfterPrefix(t: string, u: string, i: nat, d: char)
    requires i <= |t|
    ensures After(t + u, i, d) <==> After(t, i, d)
  {
    assert forall k :: 0 <= k < i ==> (t + u)[k] == t[k];
    if After(t, i, d) {
      var k :| 0 <= k < i && t[k] == d && forall h :: k < h < i ==> !Bracket(t[h]);
      assert (t + u)[k] == d;
    }
    if After(t + u, i, d) {
      var k :| 0 <= k < i && (t + u)[k] == d && forall h :: k < h < i ==> !Bracket((t + u)[h]);
      assert t[k] == d;
    }
  }

  lemma AfterSpacePrefix(t: string, u: string, i: nat)
    requires i <= |t|
    ensures AfterSpace(t + u, i) <==> AfterSpace(t, i)
  {
    assert forall k :: 0 <= k < i ==> (t + u)[k] == t[k];
    if AfterSpace(t, i) {
      var k :| 0 <= k < i && t[k] == ' ' && forall h :: k < h < i ==> LineOrTab(t[h]);
      assert (t + u)[k] == ' ';
    }
    if AfterSpace(t + u, i) {
      var k :| 0 <= k < i && (t + u)[k] == ' ' && forall h :: k < h < i ==> LineOrTab((t + u)[h]);
      assert t[k] == ' ';
    }
  }

  lemma SurvivesPrefix(t: string, u: string, i: nat)
    requires i < |t|
    ensures Survives(t + u, i) <==> Survives(t, i)
  {
    hide After, AfterSpace;
    AfterPrefix(t, u, i, '<');
    AfterPrefix(t, u, i, '>');
    AfterSpacePrefix(t, u, i);
  }

  lemma SqueezeLast(t: string, c: char)
    ensures ModeAfter(Start, t + [c]) == Next(ModeAfter(Start, t), c)
    ensures Compress(t + [c]) == Compress(t) + (if Kept(ModeAfter(Start, t), c) then [c] else "")
  {
    SqueezeConcat(Start, t, [c]);
    var m := ModeAfter(Start, t);
    SqueezeOne(m, [c]);
    SqueezeNothing(Next(m, c));
    assert [c][1..] == "";
    assert (if Kept(m, c) then [c] else "") + "" == if Kept(m, c) then [c] else "";
    hide Squeeze, ModeAfter;
  }

  // The mode the loop is in is where the position lies.
  lemma {:induction false} ModeIs(s: string)
    ensures var m := ModeAfter(Start, s);
            && (m.Tag? <==> After(s, |s|, '<'))
            && (m.Content? <==> After(s, |s|, '>'))
            && (m.Tag? ==> (m.spaced <==> AfterSpace(s, |s|)))
    decreases |s|
  {
    hide ModeAfter, After, AfterSpace;
    if s == "" {
      NothingBefore();
    } else {
      var t, c := s[..|s| - 1], s[|s| - 1];
      assert s == t + [c];
      ModeIs(t);
      SqueezeLast(t, c);
      AfterLast(t, c, '<');
      AfterLast(t, c, '>');
      AfterSpaceLast(t, c);
    }
  }

  lemma NothingBefore()
    ensures ModeAfter(Start, "") == Start
    ensures !After("", 0, '<') && !After("", 0, '>')
  {
  }

  lemma LastSurvives(t: string, c: char)
    ensures Survives(t + [c], |t|) <==> Kept(ModeAfter(Start, t), c)
  {
    hide ModeAfter, After, AfterSpace;
    ModeIs(t);
    AfterPrefix(t, [c], |t|, '<');
    AfterPrefix(t, [c], |t|, '>');
    AfterSpacePrefix(t, [c], |t|);
  }

  // ---------- What compression keeps ----------

  lemma SelectedLast(t: string, c: char, ks: seq<nat>, r: string)
    requires Selected(t, ks, r)
    ensures Survives(t + [c], |t|) ==> Selected(t + [c], ks + [|t|], r + [c])
    ensures !Survives(t + [c], |t|) ==> Selected(t + [c], ks, r)
  {
    hide Survives;
    var s := t + [c];
    forall i | 0 <= i < |t| ensures Survives(s, i) <==> Survives(t, i) { SurvivesPrefix(t, [c], i); }
  }

  // On every text the result is exactly the surviving characters in order.
  lemma {:induction false} CompressSelects(s: string)
    ensures exists ks :: Selected(s, ks, Compress(s))
    decreases |s|
  {
    hide Selected, Survives, Compress;
    if s == "" {
      NothingSelected();
    } else {
      var t, c := s[..|s| - 1], s[|s| - 1];
      assert s == t + [c];
      CompressSelects(t);
      var ks: seq<nat> :| Selected(t, ks, Compress(t));
      SelectedLast(t, c, ks, Compress(t));
      LastSurvives(t, c);
      SqueezeLast(t, c);
      assert Compress(t) + "" == Compress(t);
    }
  }

  lemma NothingSelected()
    ensures Selected("", [], Compress(""))
  {
  }

  lemma {:induction false} NoLonger(s: string)
    ensures |Compress(s)| <= |s|
    decreases |s|
  {
    hide Compress;
    if s == "" {
      NothingSelected();
    } else {
      var t, c := s[..|s| - 1], s[|s| - 1];
      assert s == t + [c];
      NoLonger(t);
      SqueezeLast(t, c);
    }
  }

  // A text stays as it is exactly when every character survives.
  lemma {:induction false} UnchangedExactly(s: string)
    ensures Compress(s) == s <==> forall i :: 0 <= i < |s| ==> Survives(s, i)
    decreases |s|
  {
    hide Compress, Survives;
    if s == "" {
      NothingSelected();
    } else {
      var t, c := s[..|s| - 1], s[|s| - 1];
      assert s == t + [c];
      UnchangedExactly(t);
      NoLonger(t);
      SqueezeLast(t, c);
      LastSurvives(t, c);
      SameLast(t, c, Compress(t), Kept(ModeAfter(Start, t), c));
      forall i | 0 <= i < |t| ensures Survives(s, i) <==> Survives(t, i) { SurvivesPrefix(t, [c], i); }
    }
  }

  lemma SameLast(t: string, c: char, r: string, kept: bool)
    requires |r| <= |t|
    ensures r + (if kept then [c] else "") == t + [c] <==> kept && r == t
  {
    if r + (if kept then [c] else "") == t + [c] {
      assert |r + (if kept then [c] else "")| == |t| + 1;
      assert (r + [c])[..|t|] == r;
      assert (t + [c])[..|t|] == t;
    }
  }

  lemma SpaceBefore(s: string, i: nat)
    requires 0 < i <= |s| && !LineOrTab(s[i - 1])
    ensures AfterSpace(s, i) <==> s[i - 1] == ' '
  {
  }

  // A tag on its own stays as it is exactly when it has no tab, line end or double space.
  lemma TagUnchanged(body: string)
    requires forall i :: 0 <= i < |body| ==> !Bracket(body[i])
    ensures var tag := "<" + body + ">";
            Compress(tag) == tag <==>
            && (forall i :: 0 <= i < |body| ==> !LineOrTab(body[i]))
            && (forall i :: 0 < i < |body| ==> !(body[i - 1] == ' ' && body[i] == ' '))
  {
    var tag := "<" + body + ">";
    UnchangedExactly(tag);
    forall i | 0 <= i < |body| ensures tag[i + 1] == body[i] {}
    forall i | 0 < i <= |body| ensures After(tag, i, '<') && !After(tag, i, '>') { assert tag[0] == '<'; }
    if forall i :: 0 <= i < |tag| ==> Survives(tag, i) {
      forall i | 0 <= i < |body| ensures !LineOrTab(body[i]) { assert Survives(tag, i + 1); }
      forall i | 0 < i < |body| ensures !(body[i - 1] == ' ' && body[i] == ' ') {
        assert Survives(tag, i + 1);
        if body[i - 1] == ' ' { assert tag[i] == ' ' && AfterSpace(tag, i + 1); }
      }
    }
    if (forall i :: 0 <= i < |body| ==> !LineOrTab(body[i])) &&
       (forall i :: 0 < i < |body| ==> !(body[i - 1] == ' ' && body[i] == ' '))
    {
      forall i | 0 <= i < |tag| ensures Survives(tag, i) {
        if i > 0 { SpaceBefore(tag, i); }
      }
    }
  }
}
