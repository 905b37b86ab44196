// Sorting names and dropping duplicates, as std::sort and std::unique do together.
module QosSorting {

  predicate Before(a: string, b: string) {
    if b == "" then false
    else if a == "" then true
    else a[0] < b[0] || (a[0] == b[0] && Before(a[1..], b[1..]))
  }

  predicate StrictlySorted(s: seq<string>) {
    forall i, j :: 0 <= i < j < |s| ==> Before(s[i], s[j])
  }

  function Insert(x: string, s: seq<string>): seq<string> {
    if s == [] then [x]
    else if x == s[0] then s
    else if Before(x, s[0]) then [x] + s
    else [s[0]] + Insert(x, s[1..])
  }

  function SortUnique(s: seq<string>): seq<string> {
    if s == [] then [] else Insert(s[0], SortUnique(s[1..]))
  }

  lemma {:induction false} BeforeOrder(a: string, b: string)
    ensures a == b || Before(a, b) || Before(b, a)
    ensures !(Before(a, b) && Before(b, a)) && !Before(a, a)
  {
    if a != "" { BeforeOrder(a[1..], if b == "" then "" else b[1..]); }
    if a != "" && b != "" && a[0] == b[0] && a[1..] == b[1..] {
      assert a == [a[0]] + a[1..] && b == [b[0]] + b[1..];
    }
  }

  lemma {:induction false} BeforeTrans(a: string, b: string, c: string)
    requires Before(a, b) && Before(b, c)
    ensures Before(a, c)
  {
    if a != "" && a[0] == b[0] == c[0] { BeforeTrans(a[1..], b[1..], c[1..]); }
  }

  lemma {:induction false} InsertSorted(x: string, s: seq<string>)
    requires StrictlySorted(s)
    ensures StrictlySorted(Insert(x, s))
    ensures forall n :: n in Insert(x, s) <==> n == x || n in s
  {
    hide Before;
    if s == [] {
    } else if x == s[0] {
    } else if Before(x, s[0]) {
      forall j | 0 < j < |s| ensures Before(x, s[j]) { BeforeTrans(x, s[0], s[j]); }
    } else {
      BeforeOrder(x, s[0]);
      InsertSorted(x, s[1..]);
      var t := Insert(x, s[1..]);
      forall j | 0 <= j < |t| ensures Before(s[0], t[j]) { assert t[j] in t; }
    }
  }

  lemma {:induction false} SortedUnique(s: seq<string>)
    ensures StrictlySorted(SortUnique(s))
    ensures forall n :: n in SortUnique(s) <==> n in s
  {
    if s != [] {
      SortedUnique(s[1..]);
      InsertSorted(s[0], SortUnique(s[1..]));
    }
  }
}
