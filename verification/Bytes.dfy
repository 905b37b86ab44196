// Integers in memory and on the wire. Network byte order is most significant byte first
// (RFC 791, appendix B).
module Bytes {

  type byte = x: int | 0 <= x < 256

  function Pow256(n: nat): (r: nat)
    ensures r > 0
  {
    if n == 0 then 1 else 256 * Pow256(n - 1)
  }

  // The n bytes of x as a little-endian machine stores them, and back.
  function LE(n: nat, x: nat): (r: seq<byte>)
    ensures |r| == n
  {
    if n == 0 then [] else [x % 256] + LE(n - 1, x / 256)
  }

  function FromLE(s: seq<byte>): (r: nat)
    ensures r < Pow256(|s|)
  {
    if s == [] then 0 else s[0] + 256 * FromLE(s[1..])
  }

  function Reversed(s: seq<byte>): (r: seq<byte>)
    ensures |r| == |s|
  {
    if s == [] then [] else Reversed(s[1..]) + [s[0]]
  }

  // The same in network order.
  function BE(n: nat, x: nat): (r: seq<byte>)
    ensures |r| == n
  {
    Reversed(LE(n, x))
  }

  function FromBE(s: seq<byte>): (r: nat)
    ensures r < Pow256(|s|)
  {
    FromLE(Reversed(s))
  }

  // htonl and its kin on a little-endian host: the number whose memory is x in network order.
  function Swap(n: nat, x: nat): (r: nat)
    ensures r < Pow256(n)
  {
    FromLE(BE(n, x))
  }

  const TWO32 := 0x1_0000_0000

  // The repository's htonll: the two halves swapped, each byte-swapped (dkmrtp_ipc.cpp, lines 40-44).
  function Htonll(x: nat): nat {
    Swap(4, x % TWO32) * TWO32 + Swap(4, x / TWO32)
  }

  lemma {:induction false} ReadsBack(n: nat, x: nat)
    requires x < Pow256(n)
    ensures FromLE(LE(n, x)) == x
  {
    if n > 0 {
      ReadsBack(n - 1, x / 256);
      assert LE(n, x)[1..] == LE(n - 1, x / 256);
    }
  }

  lemma {:induction false} WritesBack(s: seq<byte>)
    ensures LE(|s|, FromLE(s)) == s
  {
    if s != [] {
      WritesBack(s[1..]);
      assert FromLE(s) % 256 == s[0] && FromLE(s) / 256 == FromLE(s[1..]);
    }
  }

  lemma {:induction false} ReversedConcat(a: seq<byte>, b: seq<byte>)
    ensures Reversed(a + b) == Reversed(b) + Reversed(a)
    decreases a
  {
    if a == [] {
      assert a + b == b && Reversed(b) + [] == Reversed(b);
    } else {
      assert (a + b)[1..] == a[1..] + b;
      ReversedConcat(a[1..], b);
    }
  }

  lemma {:induction false} ReversedTwice(s: seq<byte>)
    ensures Reversed(Reversed(s)) == s
  {
    if s != [] {
      ReversedTwice(s[1..]);
      ReversedConcat(Reversed(s[1..]), [s[0]]);
      assert Reversed([s[0]]) == Reversed([]) + [s[0]] == [s[0]];
      assert s == [s[0]] + s[1..];
    }
  }

  lemma ReadsBackBE(n: nat, x: nat)
    requires x < Pow256(n)
    ensures FromBE(BE(n, x)) == x
  {
    ReversedTwice(LE(n, x));
    ReadsBack(n, x);
  }

  lemma WritesBackBE(s: seq<byte>)
    ensures BE(|s|, FromBE(s)) == s
  {
    WritesBack(Reversed(s));
    ReversedTwice(s);
  }

  // A swapped number lies in memory in network order; reading the wire and swapping gives the number.
  lemma SwapInMemory(n: nat, x: nat)
    ensures LE(n, Swap(n, x)) == BE(n, x)
  {
    WritesBack(BE(n, x));
  }

  lemma SwapFromMemory(s: seq<byte>)
    ensures Swap(|s|, FromLE(s)) == FromBE(s)
  {
    WritesBack(s);
  }

  lemma Carry(a: nat, b: nat, lo: nat, m: nat)
    ensures (lo + 256 * m) % 256 == lo % 256 && (lo + 256 * m) / 256 == lo / 256 + m
  {
  }

  lemma {:induction false} LEAppend(a: nat, b: nat, lo: nat, hi: nat)
    requires lo < Pow256(a)
    ensures LE(a + b, lo + Pow256(a) * hi) == LE(a, lo) + LE(b, hi)
    decreases a
  {
    if a == 0 {
      assert LE(0, lo) + LE(b, hi) == LE(b, hi);
    } else {
      var m := Pow256(a - 1) * hi;
      assert Pow256(a) * hi == 256 * m;
      Carry(a, b, lo, m);
      LEAppend(a - 1, b, lo / 256, hi);
      assert [lo % 256] + (LE(a - 1, lo / 256) + LE(b, hi)) == LE(a, lo) + LE(b, hi);
    }
  }

  lemma Pow256Is()
    ensures Pow256(1) == 0x100 && Pow256(2) == 0x1_0000 && Pow256(4) == TWO32 && Pow256(8) == TWO32 * TWO32
  {
    assert Pow256(3) == 0x100_0000;
    assert Pow256(5) == 256 * TWO32;
    assert Pow256(6) == 0x1_0000 * TWO32;
    assert Pow256(7) == 0x100_0000 * TWO32;
  }

  // Numbers of two, four and eight bytes, most significant byte first.
  lemma TwoBytes(x: nat)
    requires x < 0x1_0000
    ensures BE(2, x) == [x / 256, x % 256]
  {
    assert LE(2, x) == [x % 256] + LE(1, x / 256) && LE(1, x / 256) == [x / 256] + LE(0, x / 256 / 256);
    assert LE(2, x) == [x % 256, x / 256];
    ReversedConcat([x % 256], [x / 256]);
    OneReversed(x % 256);
    OneReversed(x / 256);
  }

  lemma OneReversed(b: byte)
    ensures Reversed([b]) == [b]
  {
    assert [b][1..] == [];
  }

  lemma FourBytes(x: nat)
    requires x < 0x1_0000_0000
    ensures BE(4, x) == [x / 0x100_0000, x / 0x1_0000 % 256, x / 256 % 256, x % 256]
  {
    Pow256Is();
    var lo, hi := x % 0x1_0000, x / 0x1_0000;
    TwoBytes(lo);
    TwoBytes(hi);
    hide Pow256, LE, Reversed;
    LEAppend(2, 2, lo, hi);
    ReversedConcat(LE(2, lo), LE(2, hi));
    assert BE(4, x) == [hi / 256, hi % 256] + [lo / 256, lo % 256];
  }

  lemma EightBytes(x: nat)
    requires x < Pow256(8)
    ensures x / TWO32 < TWO32
    ensures BE(8, x) == BE(4, x / TWO32) + BE(4, x % TWO32)
  {
    Pow256Is();
    hide Pow256, LE, Reversed;
    var lo, hi := x % TWO32, x / TWO32;
    LEAppend(4, 4, lo, hi);
    ReversedConcat(LE(4, lo), LE(4, hi));
  }

  // The repository's 64-bit conversion does put the number in network order.
  lemma HtonllInMemory(x: nat)
    requires x < Pow256(8)
    ensures LE(8, Htonll(x)) == BE(8, x)
    ensures Htonll(x) < Pow256(8)
  {
    Pow256Is();
    hide Pow256, LE, FromLE, Reversed;
    var lo, hi := x % TWO32, x / TWO32;
    assert x == lo + TWO32 * hi;
    LEAppend(4, 4, lo, hi);
    LEAppend(4, 4, Swap(4, hi), Swap(4, lo));
    assert Htonll(x) == Swap(4, hi) + TWO32 * Swap(4, lo);
    SwapInMemory(4, lo);
    SwapInMemory(4, hi);
    ReversedConcat(LE(4, lo), LE(4, hi));
  }

  // And it undoes itself, as ntohll needs.
  lemma HtonllTwice(x: nat)
    requires x < Pow256(8)
    ensures Htonll(Htonll(x)) == x
  {
    var y := Htonll(x);
    HtonllInMemory(x);
    HtonllInMemory(y);
    ReversedTwice(LE(8, x));
    assert LE(8, Htonll(y)) == LE(8, x);
    ReadsBack(8, x);
    ReadsBack(8, Htonll(y));
  }
}
