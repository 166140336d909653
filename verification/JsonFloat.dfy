/** Which number tokens a 64-bit float holds, by the parts of the token. */
module JsonFloat {

  import opened Prelude
  import opened JsonText
  import opened JsonGrammar
  import JsonNumbers

  /** The value of decimal digits, the first counting most. */
  function TenValue(s: string): int {
    if s == "" then 0 else (s[0] as int - 48) * Pow(10, |s| - 1) + TenValue(s[1..])
  }

  lemma {:induction false} TenValueLast(s: string, c: char)
    ensures TenValue(s + [c]) == 10 * TenValue(s) + (c as int - 48)
  {
    if s == "" {
      assert TenValue([c][1..]) == 0 && Pow(10, 0) == 1;
    } else {
      var d := s[0] as int - 48;
      assert (s + [c])[1..] == s[1..] + [c];
      TenValueLast(s[1..], c);
      assert d * Pow(10, |s|) == 10 * (d * Pow(10, |s| - 1));
    }
  }

  lemma {:induction false} NumeralIs(s: string)
    requires forall i :: 0 <= i < |s| ==> '0' <= s[i] <= '9'
    ensures Numeral(s) == TenValue(s)
  {
    if s != "" {
      var front, last := s[..|s| - 1], s[|s| - 1];
      NumeralIs(front);
      TenValueLast(front, last);
      assert s == front + [last];
    }
  }

  /** The power of ten an exponent part stands for. */
  function ExponentValue(exp: string): int
    requires ExponentPart(exp)
  {
    if exp == "" then 0
    else if exp[1] == '-' then -TenValue(exp[2..])
    else if exp[1] == '+' then TenValue(exp[2..])
    else TenValue(exp[1..])
  }

  lemma ExponentIs(exp: string)
    requires ExponentPart(exp)
    ensures Exponent(exp) == ExponentValue(exp)
  {
    if exp != "" {
      if exp[1] == '+' || exp[1] == '-' {
        assert exp[1..][0] == exp[1];
        NumeralIs(exp[2..]);
      } else {
        NumeralIs(exp[1..]);
      }
    }
  }

  /** The places of the fraction's digits. */
  function Places(frac: string): nat { if frac == "" then 0 else |frac| - 1 }

  function FractionDigits(frac: string): string { if frac == "" then "" else frac[1..] }

  lemma DigitsJoin(whole: string, frac: string)
    requires Decimals(whole) && Fraction(frac)
    ensures Decimals(whole + FractionDigits(frac))
  {
  }

  lemma TokenParts(t: string, sign: string, whole: string, frac: string, exp: string) returns (a: nat, b: nat, c: nat)
    requires NumberParts(t, sign, whole, frac, exp)
    ensures a <= b <= c <= |t| && a == (if t != "" && t[0] == '-' then 1 else 0) && b == Digits(t, a)
    ensures c == if b < |t| && t[b] == '.' then Digits(t, b + 1) else b
    ensures t[a..b] == whole && t[c..] == exp && c == b + |frac| && (c > b ==> t[b + 1..c] == frac[1..])
  {
    var d;
    a, b, c, d := PlaceParts(t, sign, whole, frac, exp);
    PartsRead(t, a, b, c, d);
    Cuts(sign, whole, frac, exp);
    assert b < c ==> t[b..c][1..] == t[b + 1..c];
  }

  lemma FloatAt(t: string, a: nat, b: nat, c: nat, m: nat, power: int, limit: int)
    requires a <= b <= c <= |t| && a == (if t != "" && t[0] == '-' then 1 else 0) && b == Digits(t, a)
    requires c == (if b < |t| && t[b] == '.' then Digits(t, b + 1) else b) && limit == FLOAT_LIMIT
    requires m == Numeral(if c == b then t[a..b] else t[a..b] + t[b + 1..c])
    requires power == Exponent(t[c..]) - if c == b then 0 else c - b - 1
    ensures Float64(t) == Below(m, power, limit)
  {
  }

  lemma FloatParts(t: string, sign: string, whole: string, frac: string, exp: string, m: nat, power: int, limit: int)
    requires NumberParts(t, sign, whole, frac, exp) && limit == FLOAT_LIMIT
    requires m == Numeral(whole + FractionDigits(frac)) && power == Exponent(exp) - Places(frac)
    ensures Float64(t) == Below(m, power, limit)
  {
    var a, b, c := TokenParts(t, sign, whole, frac, exp);
    assert whole + FractionDigits(frac) == if c == b then t[a..b] else t[a..b] + t[b + 1..c];
    assert Places(frac) == if c == b then 0 else c - b - 1;
    FloatAt(t, a, b, c, m, power, limit);
  }

  /** A token fits exactly when its digits, at their power of ten, stay below the
      boundary at which values round to infinity: half a unit above the largest float. */
  lemma Float64Iff(t: string, sign: string, whole: string, frac: string, exp: string, bits: nat)
    requires NumberParts(t, sign, whole, frac, exp) && bits == 970
    ensures var digits := TenValue(whole + if frac == "" then "" else frac[1..]);
            var power := ExponentValue(exp) - if frac == "" then 0 else |frac| - 1;
            var boundary := Pow(2, bits + 54) - Pow(2, bits);
            Float64(t) <==> if power >= 0 then digits * Pow(10, power) < boundary else digits < boundary * Pow(10, -power)
  {
    var m, power, limit := Numeral(whole + FractionDigits(frac)), Exponent(exp) - Places(frac), FLOAT_LIMIT;
    FloatParts(t, sign, whole, frac, exp, m, power, limit);
    DigitsJoin(whole, frac);
    NumeralIs(whole + FractionDigits(frac));
    ExponentIs(exp);
    JsonNumbers.FloatLimitIs(bits);
  }
}
