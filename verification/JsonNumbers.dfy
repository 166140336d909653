/** Which texts the decoder refuses for a number it cannot hold. */
module JsonNumbers {

  import opened Prelude
  import opened Json
  import opened JsonText
  import opened JsonRoundTrip

  /** Every number outside string literals fits: a scan that knows nothing of the
      grammar but quotes and digits. */
  predicate AllFit(fits: string -> bool, s: string)
    decreases |s|
  {
    if s == "" then true
    else if s[0] == '"' then
      match ReadString(s[1..])
      case None => true
      case Some((_, rest)) => AllFit(fits, rest)
    else if Digit(s[0]) || s[0] == '-' then
      var n := NumRun(s);
      fits(s[..n]) && AllFit(fits, s[n..])
    else AllFit(fits, s[1..])
  }

  lemma {:induction false} SpaceFits(fits: string -> bool, s: string)
    ensures AllFit(fits, SkipSpace(s)) == AllFit(fits, s)
  {
    if s != "" && Space(s[0]) {
      SpaceFits(fits, s[1..]);
    }
  }

  /** Characters the scan passes over. */
  predicate Passed(c: char) { c != '"' && !Digit(c) && c != '-' }

  lemma {:induction false} PassOver(fits: string -> bool, word: string, rest: string)
    requires forall i :: 0 <= i < |word| ==> Passed(word[i])
    ensures AllFit(fits, word + rest) == AllFit(fits, rest)
  {
    if word == "" {
      assert word + rest == rest;
    } else {
      assert (word + rest)[1..] == word[1..] + rest;
      PassOver(fits, word[1..], rest);
    }
  }

  lemma LiteralFits(fits: string -> bool, s: string, word: string, v: Json)
    requires word != "" && forall i :: 0 <= i < |word| ==> Passed(word[i])
    ensures Literal(s, word, v).Some? ==> AllFit(fits, Literal(s, word, v).value.1) == AllFit(fits, s)
  {
    if word <= s {
      assert s == word + s[|word|..];
      PassOver(fits, word, s[|word|..]);
    }
  }

  /** How reading with a restriction on numbers relates to reading without:
      `any` and `some` are what the two read, `s` is where they started. */
  ghost predicate Restricts<T>(fits: string -> bool, s: string, any: Option<(T, string)>, some: Option<(T, string)>) {
    match any
    case None => some.None?
    case Some((v, rest)) =>
      (some.Some? ==> some == any) && (AllFit(fits, s) <==> some.Some? && AllFit(fits, rest))
  }

  lemma NumberFits(fits: string -> bool, t: string, depth: nat)
    requires t != "" && !Space(t[0]) && t[0] !in ['"', '[', '{', 'n', 't', 'f']
    ensures Restricts(fits, t, ReadValue(AnyNumber, t, depth), ReadValue(fits, t, depth))
  {
    var n := NumRun(t);
    if Number(t[..n]) {
      assert Digits(t[..n], 0) >= 0;
      assert t[..n][0] == t[0];
    }
  }

  lemma {:induction false} ValueFits(fits: string -> bool, s: string, depth: nat)
    ensures Restricts(fits, s, ReadValue(AnyNumber, s, depth), ReadValue(fits, s, depth))
    decreases |s|, 1
  {
    var t := SkipSpace(s);
    SpaceFits(fits, s);
    if t != "" && t[0] == '[' {
      ArrayFits(fits, t, depth);
    } else if t != "" && t[0] == '{' {
      ObjectFits(fits, t, depth);
    } else if t != "" && t[0] == 'n' {
      LiteralFits(fits, t, "null", Null);
    } else if t != "" && t[0] == 't' {
      LiteralFits(fits, t, "true", Bool(true));
    } else if t != "" && t[0] == 'f' {
      LiteralFits(fits, t, "false", Bool(false));
    } else if t != "" && t[0] != '"' {
      NumberFits(fits, t, depth);
    }
  }

  lemma {:induction false} ArrayFits(fits: string -> bool, t: string, depth: nat)
    requires t != "" && t[0] == '['
    ensures Restricts(fits, t, ReadValue(AnyNumber, t, depth), ReadValue(fits, t, depth))
    decreases |t|, 0
  {
    var u := SkipSpace(t[1..]);
    SpaceFits(fits, t[1..]);
    if depth > 0 && !(u != "" && u[0] == ']') {
      ItemsFit(fits, u, depth - 1);
    }
  }

  lemma {:induction false} ObjectFits(fits: string -> bool, t: string, depth: nat)
    requires t != "" && t[0] == '{'
    ensures Restricts(fits, t, ReadValue(AnyNumber, t, depth), ReadValue(fits, t, depth))
    decreases |t|, 0
  {
    var u := SkipSpace(t[1..]);
    SpaceFits(fits, t[1..]);
    if depth > 0 && !(u != "" && u[0] == '}') {
      MembersFit(fits, u, depth - 1, []);
    }
  }

  lemma {:induction false} ItemsFit(fits: string -> bool, s: string, depth: nat)
    ensures Restricts(fits, s, ReadItems(AnyNumber, s, depth), ReadItems(fits, s, depth))
    decreases |s|, 2
  {
    ValueFits(fits, s, depth);
    match ReadValue(AnyNumber, s, depth)
    case None =>
    case Some((v, rest)) =>
      var t := SkipSpace(rest);
      SpaceFits(fits, rest);
      if t != "" && t[0] == ',' {
        ItemsFit(fits, t[1..], depth);
      }
  }

  lemma {:induction false} MembersFit(fits: string -> bool, s: string, depth: nat, before: seq<(string, Json)>)
    ensures Restricts(fits, s, ReadMembers(AnyNumber, s, depth, before), ReadMembers(fits, s, depth, before))
    decreases |s|, 2
  {
    var t := SkipSpace(s);
    SpaceFits(fits, s);
    if t != "" && t[0] == '"' && ReadString(t[1..]).Some? {
      var (k, afterKey) := ReadString(t[1..]).value;
      var u := SkipSpace(afterKey);
      SpaceFits(fits, afterKey);
      if u != "" && u[0] == ':' {
        ValueFits(fits, u[1..], depth);
        match ReadValue(AnyNumber, u[1..], depth)
        case None =>
        case Some((v, rest)) =>
          var w := SkipSpace(rest);
          SpaceFits(fits, rest);
          if w != "" && w[0] == ',' {
            MembersFit(fits, w[1..], depth, Put(before, k, v));
          }
      }
    }
  }

  /** A text of correct grammar is decoded, to the same value, exactly when every
      number in it fits, one that a later member replaces included; and nothing
      else is decoded. */
  lemma DecodedIff(fits: string -> bool, s: string)
    ensures Parse(fits, s) == if AllFit(fits, s) then Parse(AnyNumber, s) else None
  {
    ValueFits(fits, s, MAX_DEPTH);
    match ReadValue(AnyNumber, s, MAX_DEPTH)
    case None =>
    case Some((v, rest)) => SpaceFits(fits, rest);
  }

  // ------------------------------------------------------- which numbers fit

  lemma {:induction false} PowBase(a: nat, b: nat, n: nat)
    requires a <= b
    ensures Pow(a, n) <= Pow(b, n)
  {
    if n > 0 {
      PowBase(a, b, n - 1);
      MulMonotone(a, Pow(a, n - 1), Pow(b, n - 1));
      MulMonotone(Pow(b, n - 1), a, b);
    }
  }

  lemma {:induction false} PowPow(base: nat, k: nat, n: nat)
    ensures Pow(Pow(base, k), n) == Pow(base, k * n)
  {
    if n > 0 {
      PowPow(base, k, n - 1);
      PowAdd(base, k, k * (n - 1));
      assert k + k * (n - 1) == k * n;
    }
  }

  /** A power from two smaller ones. */
  lemma PowProduct(a: nat, b: nat, x: int, y: int)
    requires Pow(2, a) == x && Pow(2, b) == y
    ensures Pow(2, a + b) == x * y
  {
    PowAdd(2, a, b);
  }

  lemma PowTwo32(a: nat)
    requires a == 16
    ensures Pow(2, a) == 0x1_0000 && Pow(2, a + a) == 0x1_0000_0000
  {
    assert Pow(2, 4) == 16;
    PowProduct(4, 4, 16, 16);
    PowProduct(8, 8, 256, 256);
    PowProduct(a, a, 0x1_0000, 0x1_0000);
  }

  lemma PowTwo6()
    ensures Pow(2, 6) == 64
  {
    assert Pow(2, 3) == 8;
    PowAdd(2, 3, 3);
  }

  lemma PowTwo54(a: nat)
    requires a == 16
    ensures Pow(2, 3 * a + 6) == 0x40_0000_0000_0000
  {
    PowTwo32(a);
    PowProduct(a + a, a, 0x1_0000_0000, 0x1_0000);
    PowTwo6();
    PowProduct(3 * a, 6, 0x1_0000_0000_0000, 64);
  }

  lemma PowTwo194(a: nat)
    requires a == 16
    ensures Pow(2, 12 * a + 2) == TWO_TO_THE_194
  {
    PowTwo32(a);
    PowProduct(2 * a, 2 * a, 0x1_0000_0000, 0x1_0000_0000);
    PowProduct(4 * a, 4 * a, 0x1_0000_0000_0000_0000, 0x1_0000_0000_0000_0000);
    PowProduct(8 * a, 4 * a, 0x1_0000_0000_0000_0000_0000_0000_0000_0000, 0x1_0000_0000_0000_0000);
    assert Pow(2, 2) == 4;
    PowProduct(12 * a, 2, 0x1_0000_0000_0000_0000_0000_0000_0000_0000_0000_0000_0000_0000, 4);
  }

  lemma PowTwo970(n: nat)
    requires n == 194
    ensures Pow(2, 5 * n) == TWO_TO_THE_194 * TWO_TO_THE_194 * TWO_TO_THE_194 * TWO_TO_THE_194 * TWO_TO_THE_194
  {
    PowTwo194(16);
    PowAdd(2, n, n);
    PowAdd(2, 2 * n, n);
    PowAdd(2, 3 * n, n);
    PowAdd(2, 4 * n, n);
  }

  /** The limit is as the floating-point format has it. */
  lemma FloatLimitIs(bits: nat)
    requires bits == 970
    ensures FLOAT_LIMIT == Pow(2, bits + 54) - Pow(2, bits)
  {
    PowTwo970(194);
    PowTwo54(16);
    PowAdd(2, 54, bits);
  }

  lemma FloatLimitBounds()
    ensures Pow(2, 1023) <= FLOAT_LIMIT < Pow(2, 1024)
  {
    var bits: nat := 970;
    FloatLimitIs(bits);
    PowMonotone(2, bits, bits + 53);
    assert Pow(2, bits + 54) == 2 * Pow(2, bits + 53);
  }

  /** Powers of ten against powers of two. */
  lemma TenAgainstTwo(k: nat)
    ensures Pow(2, 3 * k) <= Pow(10, k) && Pow(10, 3 * k) <= Pow(2, 10 * k)
  {
    assert Pow(2, 3) == 8 && Pow(10, 3) == 1000 && Pow(2, 10) == 1024;
    PowPow(2, 3, k);
    PowBase(8, 10, k);
    PowPow(10, 3, k);
    PowPow(2, 10, k);
    PowBase(1000, 1024, k);
  }

  lemma TooLarge(exponent: nat)
    requires 3 * exponent >= 1024
    ensures !Below(1, exponent, FLOAT_LIMIT)
  {
    TenAgainstTwo(exponent);
    PowMonotone(2, 1024, 3 * exponent);
    FloatLimitBounds();
  }

  lemma SmallEnough(m: nat, digits: nat, k: nat)
    requires m < Pow(10, digits) && digits <= 3 * k && k <= 100
    ensures Below(m, 0, FLOAT_LIMIT)
  {
    TenAgainstTwo(k);
    PowMonotone(10, digits, 3 * k);
    PowMonotone(2, 10 * k, 1023);
    FloatLimitBounds();
    assert Pow(10, 0) == 1;
  }

  lemma HugeParts()
    ensures var t := "1e400"; Digits(t, 0) == 1 && Numeral(t[0..1]) == 1 && Exponent(t[1..]) == 400
  {
    var t := "1e400";
    assert t[0..1] == "1" && t[1..] == "e400" && "e400"[1..] == "400";
    assert "1"[..0] == "" && Numeral("1") == 1;
    assert "4"[..0] == "" && Numeral("4") == 4;
    assert "40"[..1] == "4" && Numeral("40") == 40;
    assert "400"[..2] == "40" && Numeral("400") == 400;
  }

  /** The token `1e400` is past the range. */
  lemma HugeNumberDoesNotFit()
    ensures !Float64("1e400")
  {
    HugeParts();
    TooLarge(400);
  }

  lemma {:induction false} NumeralBound(s: string)
    ensures Numeral(s) < Pow(10, |s|)
  {
    if s != "" {
      NumeralBound(s[..|s| - 1]);
    }
  }

  lemma {:induction false} DigitsAll(t: string, i: nat)
    requires i <= |t| && forall k :: i <= k < |t| ==> Digit(t[k])
    ensures Digits(t, i) == |t|
    decreases |t| - i
  {
    if i < |t| {
      DigitsAll(t, i + 1);
    }
  }

  /** Integers of up to three hundred digits are within it. */
  lemma ShortIntegerFits(t: string)
    requires t != "" && |t| <= 300 && forall k :: 0 <= k < |t| ==> Digit(t[k])
    ensures Float64(t)
  {
    DigitsAll(t, 0);
    assert t[0..|t|] == t && t[|t|..] == "";
    NumeralBound(t);
    SmallEnough(Numeral(t), |t|, 100);
  }
}
