/** The bytes of a text (UTF-8, RFC 3629). */
module Utf8 {

  type Byte = b: int | 0 <= b < 256

  /** The six low bits of a continuation byte. */
  function Tail(n: nat): Byte {
    0x80 + n % 0x40
  }

  function CharBytes(c: char): (bytes: seq<Byte>)
    ensures 1 <= |bytes| <= 4
  {
    var n := c as int;
    if n < 0x80 then [n]
    else if n < 0x800 then [0xC0 + n / 0x40, Tail(n)]
    else if n < 0x10000 then [0xE0 + n / 0x40 / 0x40, Tail(n / 0x40), Tail(n)]
    else [0xF0 + n / 0x40 / 0x40 / 0x40, Tail(n / 0x40 / 0x40), Tail(n / 0x40), Tail(n)]
  }

  /** Last character first in the recursion, so that a text grows at its end. */
  function Bytes(s: string): (bytes: seq<Byte>)
    ensures |s| <= |bytes| <= 4 * |s|
  {
    if s == "" then [] else Bytes(s[..|s| - 1]) + CharBytes(s[|s| - 1])
  }

  /** A byte that continues a character. */
  predicate Continues(b: Byte) {
    0x80 <= b < 0xC0
  }

  /** A character is one byte that starts it and bytes that continue it. */
  lemma CharShape(c: char)
    ensures var bytes := CharBytes(c);
            !Continues(bytes[0]) && forall i :: 1 <= i < |bytes| ==> Continues(bytes[i])
  {
  }

  /** The code point that the bytes of a character stand for. */
  function CodePoint(bytes: seq<Byte>): int
    requires 1 <= |bytes| <= 4
  {
    var high, low := bytes[0] as int, Lows(bytes[1..]);
    match |bytes|
    case 1 => high
    case 2 => (high - 0xC0) * 0x40 + low
    case 3 => (high - 0xE0) * 0x1000 + low
    case _ => (high - 0xF0) * 0x40000 + low
  }

  /** The number that continuation bytes spell. */
  function Lows(bytes: seq<Byte>): int {
    if bytes == [] then 0
    else Lows(bytes[..|bytes| - 1]) * 0x40 + bytes[|bytes| - 1] as int - 0x80
  }

  lemma LowsSnoc(bytes: seq<Byte>, n: nat)
    ensures Lows(bytes + [Tail(n)]) == Lows(bytes) * 0x40 + n % 0x40
  {
    assert (bytes + [Tail(n)])[..|bytes|] == bytes;
  }

  lemma CodePointOf(c: char)
    ensures CodePoint(CharBytes(c)) == c as int
  {
    var n := c as int;
    if n < 0x80 {
      assert CharBytes(c)[1..] == [];
    } else if n < 0x800 {
      OneLow(n);
    } else if n < 0x10000 {
      TwoLows(n);
    } else {
      ThreeLows(n);
    }
  }

  lemma OneLow(n: nat)
    ensures n / 0x40 * 0x40 + Lows([Tail(n)]) == n
  {
    LowsSnoc([], n);
  }

  lemma TwoLows(n: nat)
    ensures n / 0x40 / 0x40 * 0x1000 + Lows([Tail(n / 0x40), Tail(n)]) == n
  {
    OneLow(n / 0x40);
    LowsSnoc([Tail(n / 0x40)], n);
  }

  lemma ThreeLows(n: nat)
    ensures n / 0x40 / 0x40 / 0x40 * 0x40000 + Lows([Tail(n / 0x40 / 0x40), Tail(n / 0x40), Tail(n)]) == n
  {
    TwoLows(n / 0x40);
    LowsSnoc([Tail(n / 0x40 / 0x40), Tail(n / 0x40)], n);
    assert [Tail(n / 0x40 / 0x40), Tail(n / 0x40)] + [Tail(n)] == [Tail(n / 0x40 / 0x40), Tail(n / 0x40), Tail(n)];
  }

  lemma SameStart(s: seq<Byte>, a: seq<Byte>, t: seq<Byte>, b: seq<Byte>)
    requires s + a == t + b && a != [] && b != [] && !Continues(a[0]) && !Continues(b[0])
    requires (forall i :: 1 <= i < |a| ==> Continues(a[i])) && (forall i :: 1 <= i < |b| ==> Continues(b[i]))
    ensures s == t && a == b
  {
    var w := s + a;
    assert !Continues(w[|s|]) && forall i :: |s| < i < |w| ==> Continues(w[i]);
    assert w[|t|] == b[0];
    assert forall i :: |t| < i < |w| ==> w[i] == b[i - |t|] && Continues(w[i]);
    assert s == w[..|s|] && t == w[..|t|] && a == w[|s|..] && b == w[|t|..];
  }

  /** Two texts that end in the same bytes end in the same character. */
  lemma LastCharAgrees(s: seq<Byte>, c: char, t: seq<Byte>, d: char)
    requires s + CharBytes(c) == t + CharBytes(d)
    ensures c == d && s == t
  {
    CharShape(c);
    CharShape(d);
    SameStart(s, CharBytes(c), t, CharBytes(d));
    CodePointOf(c);
    CodePointOf(d);
  }

  /** Bytes stand for one text at most. */
  lemma {:induction false} BytesInjective(s: string, t: string)
    ensures Bytes(s) == Bytes(t) ==> s == t
  {
    if s != "" && t != "" && Bytes(s) == Bytes(t) {
      LastCharAgrees(Bytes(s[..|s| - 1]), s[|s| - 1], Bytes(t[..|t| - 1]), t[|t| - 1]);
      BytesInjective(s[..|s| - 1], t[..|t| - 1]);
      assert s == s[..|s| - 1] + [s[|s| - 1]] && t == t[..|t| - 1] + [t[|t| - 1]];
    }
  }

  /** A text whose bytes end in those of a character ends in that character. */
  lemma EndsInChar(s: string, front: seq<Byte>, c: char)
    requires Bytes(s) == front + CharBytes(c)
    ensures s != "" && s[|s| - 1] == c
  {
    LastCharAgrees(Bytes(s[..|s| - 1]), s[|s| - 1], front, c);
  }
}
