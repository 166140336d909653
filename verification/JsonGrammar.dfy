/** The grammar of JSON texts (RFC 8259), as trees that spell a text and stand for a
    value, and that the decoder reads exactly the texts there is a tree for. */
module JsonGrammar {

  import opened Prelude
  import opened Json
  import opened JsonText
  import opened JsonRoundTrip

  // ---------------------------------------------------------------- the grammar

  /** White space of section 2. */
  predicate Blank(w: string) {
    forall i :: 0 <= i < |w| ==> w[i] in {' ', '\t', '\n', '\r'}
  }

  predicate Decimals(s: string) {
    s != "" && forall i :: 0 <= i < |s| ==> '0' <= s[i] <= '9'
  }

  /** A number of section 6 in its parts: minus, integer, fraction and exponent. */
  ghost predicate NumberParts(t: string, sign: string, whole: string, frac: string, exp: string) {
    && t == sign + whole + frac + exp
    && (sign == "" || sign == "-")
    && Decimals(whole) && (|whole| > 1 ==> whole[0] != '0')
    && Fraction(frac) && ExponentPart(exp)
  }

  predicate Fraction(s: string) {
    s == "" || (s[0] == '.' && Decimals(s[1..]))
  }

  predicate ExponentPart(s: string) {
    || s == ""
    || ((s[0] == 'e' || s[0] == 'E') &&
        (Decimals(s[1..]) || (|s| > 1 && (s[1] == '+' || s[1] == '-') && Decimals(s[2..]))))
  }

  ghost predicate NumberText(t: string) {
    exists sign, whole, frac, exp :: NumberParts(t, sign, whole, frac, exp)
  }

  /** A character of a string as it is written (section 7): itself, a short escape, or
      four hexadecimal digits. */
  datatype Unit = Plain(c: char) | Short(letter: char) | Code(digits: string)

  predicate HexDigits(h: string) {
    |h| == 4 && forall i :: 0 <= i < 4 ==> '0' <= h[i] <= '9' || 'a' <= h[i] <= 'f' || 'A' <= h[i] <= 'F'
  }

  predicate UnitOk(u: Unit) {
    match u
    case Plain(c) => c >= ' ' && c != '"' && c != '\\'
    case Short(letter) => letter in {'"', '\\', '/', 'b', 'f', 'n', 'r', 't'}
    case Code(h) => HexDigits(h)
  }

  function SpellUnit(u: Unit): string {
    match u
    case Plain(c) => [c]
    case Short(letter) => ['\\', letter]
    case Code(h) => ['\\', 'u'] + h
  }

  function SpellUnits(us: seq<Unit>): string {
    if us == [] then "" else SpellUnit(us[0]) + SpellUnits(us[1..])
  }

  predicate UnitsOk(us: seq<Unit>) {
    forall i :: 0 <= i < |us| ==> UnitOk(us[i])
  }

  function DigitOf(c: char): (n: nat)
    ensures n < 16
  {
    if '0' <= c <= '9' then c as nat - 48
    else if 'a' <= c <= 'f' then c as nat - 87
    else if 'A' <= c <= 'F' then c as nat - 55
    else 0
  }

  function CodeOf(h: string): (n: nat)
    requires HexDigits(h)
    ensures n < 0x10000
  {
    0x1000 * DigitOf(h[0]) + 0x100 * DigitOf(h[1]) + 0x10 * DigitOf(h[2]) + DigitOf(h[3])
  }

  predicate HighHalf(u: Unit) {
    u.Code? && HexDigits(u.digits) && 0xD800 <= CodeOf(u.digits) < 0xDC00
  }

  predicate LowHalf(u: Unit) {
    u.Code? && HexDigits(u.digits) && 0xDC00 <= CodeOf(u.digits) < 0xE000
  }

  /** The character a unit stands for by itself; half a pair is replaced. */
  function CharOf(u: Unit): char
    requires UnitOk(u)
  {
    match u
    case Plain(c) => c
    case Short(letter) =>
      if letter == 'b' then '\U{08}' else if letter == 'f' then '\U{0C}' else if letter == 'n' then '\n'
      else if letter == 'r' then '\r' else if letter == 't' then '\t' else letter
    case Code(h) =>
      if 0xD800 <= CodeOf(h) < 0xE000 then '\U{FFFD}' else CodeOf(h) as char
  }

  /** The character beyond the first plane that a pair stands for. */
  function PairOf(h: string, l: string): char
    requires HighHalf(Code(h)) && LowHalf(Code(l))
  {
    (0x10000 + (CodeOf(h) - 0xD800) * 0x400 + (CodeOf(l) - 0xDC00)) as char
  }

  /** The text units stand for; the halves of a pair make one character. */
  function Decoded(us: seq<Unit>): string
    requires UnitsOk(us)
  {
    if us == [] then ""
    else if |us| > 1 && HighHalf(us[0]) && LowHalf(us[1])
    then [PairOf(us[0].digits, us[1].digits)] + Decoded(us[2..])
    else [CharOf(us[0])] + Decoded(us[1..])
  }

  /** A value as it is written. */
  datatype Tree =
    | Word(name: string)
    | Number(token: string)
    | Text(units: seq<Unit>)
    | List(pad: string, items: seq<Item>)
    | Record(pad: string, members: seq<Member>)

  /** An item with the white space around it. */
  datatype Item = Item(before: string, tree: Tree, after: string)

  datatype Member = Member(before: string, key: seq<Unit>, beforeColon: string, afterColon: string, tree: Tree, after: string)

  function Spell(t: Tree): string
    decreases t, 0
  {
    match t
    case Word(name) => name
    case Number(token) => token
    case Text(us) => "\"" + SpellUnits(us) + "\""
    case List(pad, items) => if items == [] then "[" + pad + "]" else "[" + SpellItems(items)
    case Record(pad, members) => if members == [] then "{" + pad + "}" else "{" + SpellMembers(members)
  }

  /** Items, with the commas between them, and the closing bracket. */
  function SpellItems(items: seq<Item>): string
    requires items != []
    decreases items, 1
  {
    var x := items[0];
    x.before + Spell(x.tree) + x.after + if |items| == 1 then "]" else "," + SpellItems(items[1..])
  }

  function SpellMembers(members: seq<Member>): string
    requires members != []
    decreases members, 1
  {
    var x := members[0];
    x.before + ("\"" + SpellUnits(x.key) + "\"") + x.beforeColon + ":" + x.afterColon + Spell(x.tree) + x.after +
    if |members| == 1 then "}" else "," + SpellMembers(members[1..])
  }

  /** A tree of the grammar with at most `depth` levels. */
  ghost predicate TreeOk(t: Tree, depth: nat)
    decreases t
  {
    match t
    case Word(name) => name in {"null", "true", "false"}
    case Number(token) => NumberText(token)
    case Text(us) => UnitsOk(us)
    case List(pad, items) =>
      && depth > 0 && Blank(pad) && (items != [] ==> pad == "")
      && forall i :: 0 <= i < |items| ==> Blank(items[i].before) && Blank(items[i].after) && TreeOk(items[i].tree, depth - 1)
    case Record(pad, members) =>
      && depth > 0 && Blank(pad) && (members != [] ==> pad == "")
      && forall i :: 0 <= i < |members| ==> MemberSpaced(members[i]) && TreeOk(members[i].tree, depth - 1)
  }

  ghost predicate MemberSpaced(x: Member) {
    Blank(x.before) && UnitsOk(x.key) && Blank(x.beforeColon) && Blank(x.afterColon) && Blank(x.after)
  }

  /** Every number in it fits. */
  predicate NumbersFit(fits: string -> bool, t: Tree)
    decreases t
  {
    match t
    case Number(token) => fits(token)
    case List(_, items) => forall i :: 0 <= i < |items| ==> NumbersFit(fits, items[i].tree)
    case Record(_, members) => forall i :: 0 <= i < |members| ==> NumbersFit(fits, members[i].tree)
    case _ => true
  }

  /** What a tree stands for. */
  ghost function Value(t: Tree, depth: nat): Json
    requires TreeOk(t, depth)
    decreases t, 0
  {
    match t
    case Word(name) => if name == "null" then Null else Bool(name == "true")
    case Number(token) => Num(token)
    case Text(us) => Str(Decoded(us))
    case List(_, items) => Arr(Values(items, depth - 1))
    case Record(_, members) => Obj(Fields([], members, depth - 1))
  }

  ghost predicate ItemsOk(items: seq<Item>, depth: nat) {
    forall i :: 0 <= i < |items| ==> Blank(items[i].before) && Blank(items[i].after) && TreeOk(items[i].tree, depth)
  }

  ghost predicate MembersOk(members: seq<Member>, depth: nat) {
    forall i :: 0 <= i < |members| ==> MemberSpaced(members[i]) && TreeOk(members[i].tree, depth)
  }

  ghost function Values(items: seq<Item>, depth: nat): seq<Json>
    requires ItemsOk(items, depth)
    decreases items, 1
  {
    if items == [] then [] else [Value(items[0].tree, depth)] + Values(items[1..], depth)
  }

  /** Members set one after the other, on top of `before`. */
  ghost function Fields(before: seq<(string, Json)>, members: seq<Member>, depth: nat): seq<(string, Json)>
    requires MembersOk(members, depth)
    decreases members, 1
  {
    if members == [] then before
    else Fields(Put(before, Decoded(members[0].key), Value(members[0].tree, depth)), members[1..], depth)
  }

  /** `s` is a JSON text of value `v`, with no more than ten thousand levels and only
      numbers that fit. */
  ghost predicate Derives(fits: string -> bool, s: string, v: Json) {
    exists before, t, after ::
      && Blank(before) && Blank(after) && TreeOk(t, 10000) && NumbersFit(fits, t)
      && s == before + Spell(t) + after && v == Value(t, 10000)
  }

  // -------------------------------------------------------------------- numbers

  lemma {:induction false} DigitsTo(t: string, i: nat, j: nat)
    requires i <= j <= |t| && (forall k :: i <= k < j ==> '0' <= t[k] <= '9') && (j < |t| ==> !('0' <= t[j] <= '9'))
    ensures Digits(t, i) == j
    decreases j - i
  {
    if i < j {
      DigitsTo(t, i + 1, j);
    }
  }

  lemma {:induction false} DigitsAre(t: string, i: nat)
    requires i <= |t|
    ensures var j := Digits(t, i);
            i <= j <= |t| && (forall k :: i <= k < j ==> '0' <= t[k] <= '9') && (j < |t| ==> !('0' <= t[j] <= '9'))
    decreases |t| - i
  {
    if i < |t| && Digit(t[i]) {
      DigitsAre(t, i + 1);
    }
  }

  predicate DecimalsAt(t: string, i: nat, j: nat) {
    i < j <= |t| && forall k :: i <= k < j ==> '0' <= t[k] <= '9'
  }

  predicate FractionAt(t: string, b: nat, c: nat) {
    b <= c <= |t| && (b == c || (t[b] == '.' && DecimalsAt(t, b + 1, c)))
  }

  predicate ExponentAt(t: string, c: nat, d: nat) {
    c == |t| ||
      (c < |t| && (t[c] == 'e' || t[c] == 'E') && DecimalsAt(t, d, |t|)
       && (d == c + 1 || (d == c + 2 && (t[c + 1] == '+' || t[c + 1] == '-'))))
  }

  /** The same parts by their positions: integer from `a`, fraction from `b`, exponent
      from `c` with its digits from `d`. */
  predicate PartsAt(t: string, a: nat, b: nat, c: nat, d: nat) {
    && a <= 1 && (a == 1 ==> t != "" && t[0] == '-')
    && DecimalsAt(t, a, b) && (b - a > 1 ==> t[a] != '0')
    && FractionAt(t, b, c) && ExponentAt(t, c, d)
  }

  lemma NumberHasParts(t: string) returns (a: nat, b: nat, c: nat, d: nat)
    requires JsonText.Number(t)
    ensures PartsAt(t, a, b, c, d)
  {
    a := if t != "" && t[0] == '-' then 1 else 0;
    b := Digits(t, a);
    DigitsAre(t, a);
    c := if b < |t| && t[b] == '.' then Digits(t, b + 1) else b;
    if b < |t| && t[b] == '.' {
      DigitsAre(t, b + 1);
    }
    d := if c + 1 < |t| && (t[c + 1] == '+' || t[c + 1] == '-') then c + 2 else c + 1;
    if c < |t| {
      DigitsAre(t, d);
    }
  }

  lemma PartsRead(t: string, a: nat, b: nat, c: nat, d: nat)
    requires PartsAt(t, a, b, c, d)
    ensures a == (if t != "" && t[0] == '-' then 1 else 0) && Digits(t, a) == b
    ensures b < |t| && t[b] == '.' ==> c > b && Digits(t, b + 1) == c
    ensures !(b < |t| && t[b] == '.') ==> c == b
    ensures c < |t| ==> d == (if c + 1 < |t| && (t[c + 1] == '+' || t[c + 1] == '-') then c + 2 else c + 1) && Digits(t, d) == |t|
  {
    DigitsTo(t, a, b);
    if b < c {
      DigitsTo(t, b + 1, c);
    }
    if c < |t| {
      DigitsTo(t, d, |t|);
    }
  }

  lemma PartsMakeNumber(t: string, a: nat, b: nat, c: nat, d: nat)
    requires PartsAt(t, a, b, c, d)
    ensures JsonText.Number(t)
    ensures forall i :: 0 <= i < |t| ==> NumChar(t[i])
  {
    PartsRead(t, a, b, c, d);
  }

  lemma SliceDecimals(t: string, i: nat, j: nat)
    requires i <= j <= |t|
    ensures Decimals(t[i..j]) <==> DecimalsAt(t, i, j)
  {
    var s := t[i..j];
    if DecimalsAt(t, i, j) {
      assert forall k :: 0 <= k < |s| ==> s[k] == t[i + k];
    }
    if Decimals(s) {
      assert forall k :: i <= k < j ==> t[k] == s[k - i];
    }
  }

  lemma SliceFraction(t: string, b: nat, c: nat)
    requires b <= c <= |t|
    ensures Fraction(t[b..c]) <==> FractionAt(t, b, c)
  {
    if b < c {
      SliceDecimals(t, b + 1, c);
      assert t[b..c][1..] == t[b + 1..c];
    }
  }

  lemma SliceExponent(t: string, c: nat)
    requires c <= |t|
    ensures ExponentPart(t[c..]) <==> exists d: nat :: ExponentAt(t, c, d)
  {
    if c == |t| {
      assert ExponentAt(t, c, c);
    } else {
      SliceDecimals(t, c + 1, |t|);
      assert t[c..][1..] == t[c + 1..|t|];
      assert ExponentAt(t, c, c + 1) <==> (t[c] == 'e' || t[c] == 'E') && Decimals(t[c..][1..]);
      if c + 2 <= |t| {
        SliceDecimals(t, c + 2, |t|);
        assert t[c..][2..] == t[c + 2..|t|];
        assert ExponentAt(t, c, c + 2) <==>
               (t[c] == 'e' || t[c] == 'E') && (t[c + 1] == '+' || t[c + 1] == '-') && Decimals(t[c..][2..]);
      }
    }
  }

  /** The parts of a token, cut out. */
  lemma CutParts(t: string, a: nat, b: nat, c: nat, d: nat)
    requires PartsAt(t, a, b, c, d)
    ensures NumberParts(t, t[..a], t[a..b], t[b..c], t[c..])
  {
    assert t == t[..a] + t[a..b] + t[b..c] + t[c..];
    assert a == 1 ==> t[..a] == "-";
    SliceDecimals(t, a, b);
    SliceFraction(t, b, c);
    SliceExponent(t, c);
  }

  lemma Cuts(sign: string, whole: string, frac: string, exp: string)
    ensures var t, a := sign + whole + frac + exp, |sign|;
            var b := a + |whole|;
            var c := b + |frac|;
            t[..a] == sign && t[a..b] == whole && t[b..c] == frac && t[c..] == exp
  {
  }

  lemma PlaceParts(t: string, sign: string, whole: string, frac: string, exp: string) returns (a: nat, b: nat, c: nat, d: nat)
    requires NumberParts(t, sign, whole, frac, exp)
    ensures PartsAt(t, a, b, c, d) && a == |sign| && b == a + |whole| && c == b + |frac|
  {
    Cuts(sign, whole, frac, exp);
    a := |sign|;
    b := a + |whole|;
    c := b + |frac|;
    SliceDecimals(t, a, b);
    SliceFraction(t, b, c);
    SliceExponent(t, c);
    assert t[a] == whole[0] && (a == 1 ==> t[0] == sign[0]);
    d :| ExponentAt(t, c, d);
  }

  /** The decoder's notion of a number token is the grammar's. */
  lemma NumberIff(t: string)
    ensures JsonText.Number(t) <==> NumberText(t)
  {
    if JsonText.Number(t) {
      var a, b, c, d := NumberHasParts(t);
      CutParts(t, a, b, c, d);
    }
    if sign, whole, frac, exp :| NumberParts(t, sign, whole, frac, exp) {
      var a, b, c, d := PlaceParts(t, sign, whole, frac, exp);
      PartsMakeNumber(t, a, b, c, d);
    }
  }

  // -------------------------------------------------------------------- strings

  lemma HexValIs(c: char)
    ensures HexVal(c).Some? <==> '0' <= c <= '9' || 'a' <= c <= 'f' || 'A' <= c <= 'F'
    ensures HexVal(c).Some? ==> HexVal(c).value == DigitOf(c)
  {
  }

  lemma Hex4Is(h: string, rest: string)
    requires |h| == 4
    ensures Hex4(h + rest) == if HexDigits(h) then Some(CodeOf(h)) else None
  {
    var s := h + rest;
    assert s[0] == h[0] && s[1] == h[1] && s[2] == h[2] && s[3] == h[3];
    HexValIs(h[0]);
    HexValIs(h[1]);
    HexValIs(h[2]);
    HexValIs(h[3]);
    assert HexDigits(h) <==> HexVal(h[0]).Some? && HexVal(h[1]).Some? && HexVal(h[2]).Some? && HexVal(h[3]).Some?;
  }

  lemma Hex4Splits(s: string)
    ensures Hex4(s).Some? <==> |s| >= 4 && HexDigits(s[..4])
    ensures Hex4(s).Some? ==> Hex4(s).value == CodeOf(s[..4])
  {
    if |s| >= 4 {
      Hex4Is(s[..4], s[4..]);
      assert s == s[..4] + s[4..];
    }
  }

  /** A pair written as two codes. */
  predicate PairAhead(s: string) {
    |s| >= 6 && s[0] == '\\' && s[1] == 'u' && HexDigits(s[2..6]) && 0xDC00 <= CodeOf(s[2..6]) < 0xE000
  }

  /** How the decoder reads a code, after `u`. */
  lemma CodeEscape(h: string, tail: string)
    requires HexDigits(h)
    ensures Escape(['u'] + h + tail) ==
            if 0xD800 <= CodeOf(h) < 0xDC00 && PairAhead(tail)
            then Some((PairOf(h, tail[2..6]), tail[6..]))
            else Some((CharOf(Code(h)), tail))
  {
    var s := ['u'] + h + tail;
    assert s[1..] == h + tail && s[5..] == tail;
    Hex4Is(h, tail);
    if |tail| >= 2 {
      assert s[5] == tail[0] && s[6] == tail[1] && s[7..] == tail[2..] && |s| > 6;
      Hex4Splits(tail[2..]);
      if |tail| >= 6 {
        assert tail[2..][..4] == tail[2..6] && s[11..] == tail[6..];
      }
    }
  }

  lemma CodeAhead(h: string, after: string)
    requires HexDigits(h)
    ensures var tail := ['\\', 'u'] + h + after;
            && (PairAhead(tail) <==> 0xDC00 <= CodeOf(h) < 0xE000)
            && tail[2..6] == h && tail[6..] == after
  {
    var tail := ['\\', 'u'] + h + after;
    assert tail[2..6] == h && tail[6..] == after && tail[0] == '\\' && tail[1] == 'u';
  }

  /** What is written of units and the closing quote. */
  function Closed(us: seq<Unit>, rest: string): string {
    SpellUnits(us) + ("\"" + rest)
  }

  lemma ClosedStep(us: seq<Unit>, rest: string)
    requires us != []
    ensures Closed(us, rest) == SpellUnit(us[0]) + Closed(us[1..], rest)
  {
    AppendAssoc(SpellUnit(us[0]), SpellUnits(us[1..]), "\"" + rest);
  }

  /** What follows a unit begins like a low half only if it is one. */
  lemma AheadIff(us: seq<Unit>, rest: string)
    requires UnitsOk(us)
    ensures PairAhead(Closed(us, rest)) <==> us != [] && LowHalf(us[0])
    ensures us != [] && LowHalf(us[0]) ==>
              Closed(us, rest)[2..6] == us[0].digits && Closed(us, rest)[6..] == Closed(us[1..], rest)
  {
    if us == [] {
      assert Closed(us, rest)[0] == '"';
    } else {
      ClosedStep(us, rest);
      match us[0]
      case Plain(c) => assert Closed(us, rest)[0] == c;
      case Short(letter) => assert Closed(us, rest)[1] == letter;
      case Code(h) => CodeAhead(h, Closed(us[1..], rest));
    }
  }

  lemma ReadsPlain(c: char, tail: string)
    requires UnitOk(Plain(c))
    ensures ReadString([c] + tail) ==
            match ReadString(tail) case None => None case Some((x, rest)) => Some(([c] + x, rest))
  {
    assert ([c] + tail)[1..] == tail;
  }

  lemma ReadsEscape(s: string)
    ensures ReadString(['\\'] + s) ==
            match Escape(s)
            case None => None
            case Some((c, tail)) => match ReadString(tail) case None => None case Some((x, rest)) => Some(([c] + x, rest))
  {
    assert (['\\'] + s)[1..] == s;
  }

  lemma ShortEscape(letter: char, tail: string)
    requires UnitOk(Short(letter))
    ensures Escape([letter] + tail) == Some((CharOf(Short(letter)), tail))
  {
    assert ([letter] + tail)[1..] == tail;
  }

  lemma ReadsShort(letter: char, tail: string)
    requires UnitOk(Short(letter))
    ensures ReadString(['\\', letter] + tail) ==
            match ReadString(tail) case None => None case Some((x, rest)) => Some(([CharOf(Short(letter))] + x, rest))
  {
    assert ['\\', letter] + tail == ['\\'] + ([letter] + tail);
    ShortEscape(letter, tail);
    ReadsEscape([letter] + tail);
  }

  lemma ReadsQuote(rest: string)
    ensures ReadString("\"" + rest) == Some(("", rest))
  {
    assert ("\"" + rest)[1..] == rest;
  }

  /** A written string is read as the text its units stand for. */
  lemma {:induction false} ReadsUnits(us: seq<Unit>, rest: string)
    requires UnitsOk(us)
    ensures ReadString(Closed(us, rest)) == Some((Decoded(us), rest))
    decreases |us|
  {
    if us == [] {
      assert Closed(us, rest) == "\"" + rest;
      ReadsQuote(rest);
    } else {
      var tail := Closed(us[1..], rest);
      ClosedStep(us, rest);
      ReadsUnits(us[1..], rest);
      match us[0]
      case Plain(c) => ReadsPlain(c, tail);
      case Short(letter) => ReadsShort(letter, tail);
      case Code(h) => ReadsCode(us, h, rest);
    }
  }

  lemma {:induction false} ReadsCode(us: seq<Unit>, h: string, rest: string)
    requires UnitsOk(us) && us != [] && us[0] == Code(h)
    requires ReadString(Closed(us[1..], rest)) == Some((Decoded(us[1..]), rest))
    ensures ReadString(Closed(us, rest)) == Some((Decoded(us), rest))
    decreases |us| - 1
  {
    if |us| > 1 && HighHalf(us[0]) && LowHalf(us[1]) {
      ReadsUnits(us[2..], rest);
      ReadsPairAhead(us, rest);
    } else {
      ReadsSoloAhead(us, rest);
    }
  }

  lemma ReadsPairAhead(us: seq<Unit>, rest: string)
    requires UnitsOk(us) && |us| > 1 && HighHalf(us[0]) && LowHalf(us[1])
    requires ReadString(Closed(us[2..], rest)) == Some((Decoded(us[2..]), rest))
    ensures ReadString(Closed(us, rest)) == Some((Decoded(us), rest))
  {
    var h, l, tail := us[0].digits, us[1].digits, Closed(us[1..], rest);
    ClosedStep(us, rest);
    AheadIff(us[1..], rest);
    assert us[1..][0] == us[1] && us[1..][1..] == us[2..];
    assert tail[2..6] == l;
    ReadsPair(h, tail);
    DecodedPair(us);
  }

  lemma ReadsSoloAhead(us: seq<Unit>, rest: string)
    requires UnitsOk(us) && us != [] && us[0].Code? && !(|us| > 1 && HighHalf(us[0]) && LowHalf(us[1]))
    requires ReadString(Closed(us[1..], rest)) == Some((Decoded(us[1..]), rest))
    ensures ReadString(Closed(us, rest)) == Some((Decoded(us), rest))
  {
    ClosedStep(us, rest);
    AheadIff(us[1..], rest);
    ReadsSolo(us[0].digits, Closed(us[1..], rest));
    DecodedSolo(us);
  }

  lemma DecodedPair(us: seq<Unit>)
    requires UnitsOk(us) && |us| > 1 && HighHalf(us[0]) && LowHalf(us[1])
    ensures Decoded(us) == [PairOf(us[0].digits, us[1].digits)] + Decoded(us[2..])
  {
  }

  lemma DecodedSolo(us: seq<Unit>)
    requires UnitsOk(us) && us != [] && !(|us| > 1 && HighHalf(us[0]) && LowHalf(us[1]))
    ensures Decoded(us) == [CharOf(us[0])] + Decoded(us[1..])
  {
  }

  lemma ReadsPair(h: string, tail: string)
    requires HexDigits(h) && 0xD800 <= CodeOf(h) < 0xDC00 && PairAhead(tail)
    ensures ReadString(['\\', 'u'] + h + tail) ==
            match ReadString(tail[6..])
            case None => None
            case Some((x, rest)) => Some(([PairOf(h, tail[2..6])] + x, rest))
  {
    CodeEscape(h, tail);
    ReadsEscape(['u'] + h + tail);
    assert ['\\', 'u'] + h + tail == ['\\'] + (['u'] + h + tail);
  }

  lemma ReadsSolo(h: string, tail: string)
    requires HexDigits(h) && !(0xD800 <= CodeOf(h) < 0xDC00 && PairAhead(tail))
    ensures ReadString(['\\', 'u'] + h + tail) ==
            match ReadString(tail) case None => None case Some((x, rest)) => Some(([CharOf(Code(h))] + x, rest))
  {
    CodeEscape(h, tail);
    ReadsEscape(['u'] + h + tail);
    assert ['\\', 'u'] + h + tail == ['\\'] + (['u'] + h + tail);
  }

  /** And what is read as a string is written so. */
  lemma {:induction false} FindUnits(s: string) returns (us: seq<Unit>)
    requires ReadString(s).Some?
    ensures UnitsOk(us) && s == Closed(us, ReadString(s).value.1) && Decoded(us) == ReadString(s).value.0
    decreases |s|, 2
  {
    var rest := ReadString(s).value.1;
    if s[0] == '"' {
      us := [];
      assert s == "\"" + s[1..];
    } else if s[0] != '\\' {
      var more := FindUnits(s[1..]);
      us := [Plain(s[0])] + more;
      Prepended(Plain(s[0]), more, s, rest);
    } else if s[1] != 'u' {
      var more := FindUnits(s[2..]);
      us := [Short(s[1])] + more;
      assert s[1..][1..] == s[2..];
      Prepended(Short(s[1]), more, s, rest);
    } else {
      us := FindCode(s);
    }
  }

  lemma Prepended(u: Unit, more: seq<Unit>, s: string, rest: string)
    requires UnitOk(u) && UnitsOk(more) && !(more != [] && HighHalf(u) && LowHalf(more[0]))
    requires s == SpellUnit(u) + Closed(more, rest)
    ensures var us := [u] + more;
            UnitsOk(us) && s == Closed(us, rest) && Decoded(us) == [CharOf(u)] + Decoded(more)
  {
    var us := [u] + more;
    ClosedStep(us, rest);
    assert us[1..] == more;
  }

  lemma {:induction false} FindCode(s: string) returns (us: seq<Unit>)
    requires ReadString(s).Some? && |s| > 1 && s[0] == '\\' && s[1] == 'u'
    ensures UnitsOk(us) && s == Closed(us, ReadString(s).value.1) && Decoded(us) == ReadString(s).value.0
    decreases |s|, 1
  {
    var h, tail := CodeStages(s);
    if 0xD800 <= CodeOf(h) < 0xDC00 && PairAhead(tail) {
      ReadsPair(h, tail);
      us := FindPair(h, tail);
    } else {
      ReadsSolo(h, tail);
      us := FindSolo(h, tail);
    }
  }

  lemma CodeStages(s: string) returns (h: string, tail: string)
    requires ReadString(s).Some? && |s| > 1 && s[0] == '\\' && s[1] == 'u'
    ensures HexDigits(h) && s == ['\\', 'u'] + h + tail && |tail| < |s|
  {
    Hex4Splits(s[2..]);
    assert s[1..][1..] == s[2..];
    h, tail := s[2..6], s[6..];
    assert s[2..][..4] == h;
  }

  lemma {:induction false} FindPair(h: string, tail: string) returns (us: seq<Unit>)
    requires HexDigits(h) && 0xD800 <= CodeOf(h) < 0xDC00 && PairAhead(tail) && ReadString(tail[6..]).Some?
    ensures var (x, rest) := ReadString(tail[6..]).value;
            && UnitsOk(us) && ['\\', 'u'] + h + tail == Closed(us, rest)
            && Decoded(us) == [PairOf(h, tail[2..6])] + x
    decreases |tail| + 6, 0
  {
    var l := tail[2..6];
    var more := FindUnits(tail[6..]);
    us := [Code(h), Code(l)] + more;
    PairPrepended(h, l, more, ReadString(tail[6..]).value.1);
    PairText(tail);
  }

  lemma PairText(tail: string)
    requires PairAhead(tail)
    ensures tail == ['\\', 'u'] + tail[2..6] + tail[6..]
  {
  }

  lemma {:induction false} FindSolo(h: string, tail: string) returns (us: seq<Unit>)
    requires HexDigits(h) && !(0xD800 <= CodeOf(h) < 0xDC00 && PairAhead(tail)) && ReadString(tail).Some?
    ensures var (x, rest) := ReadString(tail).value;
            UnitsOk(us) && ['\\', 'u'] + h + tail == Closed(us, rest) && Decoded(us) == [CharOf(Code(h))] + x
    decreases |tail| + 6, 0
  {
    var rest := ReadString(tail).value.1;
    var more := FindUnits(tail);
    us := [Code(h)] + more;
    AheadIff(more, rest);
    Prepended(Code(h), more, ['\\', 'u'] + h + tail, rest);
  }

  lemma PairPrepended(h: string, l: string, more: seq<Unit>, rest: string)
    requires HighHalf(Code(h)) && LowHalf(Code(l)) && UnitsOk(more)
    ensures var us := [Code(h), Code(l)] + more;
            && UnitsOk(us)
            && Closed(us, rest) == ['\\', 'u'] + h + (['\\', 'u'] + l + Closed(more, rest))
            && Decoded(us) == [PairOf(h, l)] + Decoded(more)
  {
    var us := [Code(h), Code(l)] + more;
    assert us[1..] == [Code(l)] + more && us[2..] == more && us[1..][1..] == more;
    ClosedStep(us, rest);
    ClosedStep(us[1..], rest);
  }

  // --------------------------------------------------------------------- values

  lemma {:induction false} SkipBlank(w: string, s: string)
    requires Blank(w)
    ensures SkipSpace(w + s) == SkipSpace(s)
  {
    if w == "" {
      assert w + s == s;
    } else {
      assert (w + s)[1..] == w[1..] + s && (w + s)[0] == w[0];
      SkipBlank(w[1..], s);
    }
  }

  lemma {:induction false} LeadingBlank(s: string) returns (w: string)
    ensures Blank(w) && s == w + SkipSpace(s)
  {
    if s != "" && s[0] in {' ', '\t', '\n', '\r'} {
      var more := LeadingBlank(s[1..]);
      w := [s[0]] + more;
      AppendAssoc([s[0]], more, SkipSpace(s[1..]));
      assert s == [s[0]] + s[1..];
    } else {
      w := "";
      assert "" + s == s;
    }
  }

  /** White space in front makes no difference to a value, items or members. */
  lemma SkipFirst(fits: string -> bool, s: string, depth: nat, before: seq<(string, Json)>)
    ensures ReadValue(fits, SkipSpace(s), depth) == ReadValue(fits, s, depth)
    ensures ReadItems(fits, SkipSpace(s), depth) == ReadItems(fits, s, depth)
    ensures ReadMembers(fits, SkipSpace(s), depth, before) == ReadMembers(fits, s, depth, before)
  {
    assert SkipSpace(SkipSpace(s)) == SkipSpace(s);
  }

  /** How a tree begins. */
  lemma SpellStart(t: Tree, depth: nat)
    requires TreeOk(t, depth)
    ensures Spell(t) != "" && !Space(Spell(t)[0]) && Spell(t)[0] != ']' && Spell(t)[0] != '}'
  {
    match t
    case Number(token) =>
      NumberIff(token);
      var a, b, c, d := NumberHasParts(token);
    case _ =>
  }

  lemma ReadsNumber(fits: string -> bool, token: string, rest: string, depth: nat)
    requires NumberText(token) && fits(token) && Stops(rest)
    ensures ReadValue(fits, token + rest, depth) == Some((Num(token), rest))
  {
    NumberIff(token);
    var a, b, c, d := NumberHasParts(token);
    PartsMakeNumber(token, a, b, c, d);
    NumberRoundTrip(fits, token, rest, depth);
  }

  lemma ReadsWord(fits: string -> bool, name: string, rest: string, depth: nat)
    requires name in {"null", "true", "false"}
    ensures ReadValue(fits, name + rest, depth) == Some((Value(Word(name), 0), rest))
  {
    if name == "null" {
      LiteralRoundTrip("null", rest, Null);
    } else if name == "true" {
      LiteralRoundTrip("true", rest, Bool(true));
    } else {
      LiteralRoundTrip("false", rest, Bool(false));
    }
  }

  lemma QuotedReads(us: seq<Unit>, rest: string)
    requires UnitsOk(us)
    ensures var s := "\"" + SpellUnits(us) + "\"" + rest; s != "" && s[0] == '"' && ReadString(s[1..]) == Some((Decoded(us), rest))
  {
    var s := "\"" + SpellUnits(us) + "\"" + rest;
    assert s[1..] == Closed(us, rest);
    ReadsUnits(us, rest);
  }

  ghost predicate ItemsFit(fits: string -> bool, items: seq<Item>) {
    forall i :: 0 <= i < |items| ==> NumbersFit(fits, items[i].tree)
  }

  ghost predicate MembersFit(fits: string -> bool, members: seq<Member>) {
    forall i :: 0 <= i < |members| ==> NumbersFit(fits, members[i].tree)
  }

  /** A spelled tree is read as its value, whatever white space is in front of it and
      whatever follows it. */
  lemma {:induction false} ReadsTree(fits: string -> bool, t: Tree, w: string, rest: string, depth: nat)
    requires TreeOk(t, depth) && NumbersFit(fits, t) && Blank(w) && Stops(rest)
    ensures ReadValue(fits, w + (Spell(t) + rest), depth) == Some((Value(t, depth), rest))
    decreases t, 0
  {
    var s := Spell(t) + rest;
    SkipBlank(w, s);
    SkipFirst(fits, w + s, depth, []);
    SkipFirst(fits, s, depth, []);
    match t
    case Word(name) => ReadsWord(fits, name, rest, depth);
    case Number(token) => ReadsNumber(fits, token, rest, depth);
    case Text(us) =>
      SpellStart(t, depth);
      QuotedReads(us, rest);
    case List(pad, items) => ReadsList(fits, pad, items, rest, depth);
    case Record(pad, members) => ReadsRecord(fits, pad, members, rest, depth);
  }

  lemma {:induction false} ReadsList(fits: string -> bool, pad: string, items: seq<Item>, rest: string, depth: nat)
    requires TreeOk(List(pad, items), depth) && NumbersFit(fits, List(pad, items))
    ensures ReadValue(fits, Spell(List(pad, items)) + rest, depth) == Some((Value(List(pad, items), depth), rest))
    decreases items, 3
  {
    if items == [] {
      ReadsEmpty(fits, pad, rest, depth);
    } else {
      var u := SpellItems(items) + rest;
      ReadsItems(fits, items, rest, depth - 1);
      FirstItem(items, rest, depth - 1);
      SkipFirst(fits, u, depth - 1, []);
      ListOpens(fits, u, depth);
      AppendAssoc("[", SpellItems(items), rest);
    }
  }

  lemma ReadsEmpty(fits: string -> bool, pad: string, rest: string, depth: nat)
    requires Blank(pad) && depth > 0
    ensures ReadValue(fits, "[" + pad + "]" + rest, depth) == Some((Arr([]), rest))
    ensures ReadValue(fits, "{" + pad + "}" + rest, depth) == Some((Obj([]), rest))
  {
    AppendAssoc("[" + pad, "]", rest);
    AppendAssoc("[", pad, "]" + rest);
    AppendAssoc("{" + pad, "}", rest);
    AppendAssoc("{", pad, "}" + rest);
    DropFirst("[", pad + ("]" + rest));
    DropFirst("{", pad + ("}" + rest));
    DropFirst("]", rest);
    DropFirst("}", rest);
    SkipBlank(pad, "]" + rest);
    SkipBlank(pad, "}" + rest);
  }

  lemma ListOpens(fits: string -> bool, u: string, depth: nat)
    requires depth > 0 && SkipSpace(u) != "" && SkipSpace(u)[0] != ']'
    ensures ReadValue(fits, "[" + u, depth) ==
            match ReadItems(fits, SkipSpace(u), depth - 1) case None => None case Some((vs, rest)) => Some((Arr(vs), rest))
  {
    DropFirst("[", u);
  }

  lemma RecordOpens(fits: string -> bool, u: string, depth: nat)
    requires depth > 0 && SkipSpace(u) != "" && SkipSpace(u)[0] != '}'
    ensures ReadValue(fits, "{" + u, depth) ==
            match ReadMembers(fits, u, depth - 1, []) case None => None case Some((fs, rest)) => Some((Obj(fs), rest))
  {
    DropFirst("{", u);
    SkipFirst(fits, u, depth - 1, []);
  }

  /** A list with items does not look empty. */
  lemma FirstItem(items: seq<Item>, rest: string, depth: nat)
    requires items != [] && ItemsOk(items, depth)
    ensures var u := SkipSpace(SpellItems(items) + rest); u != "" && u[0] != ']'
  {
    var x := items[0];
    SpellStart(x.tree, depth);
    ItemsSplit(items, rest);
    SkipBlank(x.before, Spell(x.tree) + (x.after + ItemsTail(items, rest)));
  }

  /** What follows the first item and the white space after it. */
  function ItemsTail(items: seq<Item>, rest: string): string
    requires items != []
  {
    if |items| == 1 then "]" + rest else "," + (SpellItems(items[1..]) + rest)
  }

  lemma ItemsSplit(items: seq<Item>, rest: string)
    requires items != []
    ensures var x := items[0];
            SpellItems(items) + rest == x.before + (Spell(x.tree) + (x.after + ItemsTail(items, rest)))
    ensures ItemsTail(items, rest)[1..] == if |items| == 1 then rest else SpellItems(items[1..]) + rest
  {
    var x := items[0];
    if |items| == 1 {
      Reassociate(x.before, Spell(x.tree), x.after, "]", rest);
      DropFirst("]", rest);
    } else {
      var more := SpellItems(items[1..]);
      Reassociate(x.before, Spell(x.tree), x.after, "," + more, rest);
      AppendAssoc(",", more, rest);
      DropFirst(",", more + rest);
    }
  }

  lemma TailStops(w: string, tail: string)
    requires Blank(w) && tail != "" && !NumChar(tail[0]) && !Space(tail[0])
    ensures Stops(w + tail) && SkipSpace(w + tail) == tail
  {
    SkipBlank(w, tail);
  }

  lemma {:induction false} ReadsItems(fits: string -> bool, items: seq<Item>, rest: string, depth: nat)
    requires items != [] && ItemsOk(items, depth) && ItemsFit(fits, items)
    ensures ReadItems(fits, SpellItems(items) + rest, depth) == Some((Values(items, depth), rest))
    decreases items, 1
  {
    var x, tail := items[0], ItemsTail(items, rest);
    ItemsSplit(items, rest);
    TailStops(x.after, tail);
    ReadsTree(fits, x.tree, x.before, x.after + tail, depth);
    ReadsItem(fits, x.before + (Spell(x.tree) + (x.after + tail)), Value(x.tree, depth), x.after, tail, depth);
    if |items| > 1 {
      ReadsItems(fits, items[1..], rest, depth);
    } else {
      OneValue(items, depth);
    }
  }

  lemma OneValue(items: seq<Item>, depth: nat)
    requires |items| == 1 && ItemsOk(items, depth)
    ensures Values(items, depth) == [Value(items[0].tree, depth)]
  {
    assert items[1..] == [] && Values(items[1..], depth) == [];
  }

  lemma ReadsItem(fits: string -> bool, s: string, v: Json, after: string, tail: string, depth: nat)
    requires Blank(after) && tail != "" && (tail[0] == ',' || tail[0] == ']')
    requires ReadValue(fits, s, depth) == Some((v, after + tail))
    ensures ReadItems(fits, s, depth) ==
            if tail[0] == ']' then Some(([v], tail[1..]))
            else match ReadItems(fits, tail[1..], depth) case None => None case Some((vs, end)) => Some(([v] + vs, end))
  {
    SkipBlank(after, tail);
  }

  /** What follows the first member and the white space after it. */
  function MembersTail(members: seq<Member>, rest: string): string
    requires members != []
  {
    if |members| == 1 then "}" + rest else "," + (SpellMembers(members[1..]) + rest)
  }

  /** A member from its key on. */
  function FromKey(x: Member, tail: string): string {
    "\"" + SpellUnits(x.key) + "\"" + (x.beforeColon + (":" + (x.afterColon + (Spell(x.tree) + (x.after + tail)))))
  }

  lemma MembersSplit(members: seq<Member>, rest: string)
    requires members != []
    ensures SpellMembers(members) + rest == members[0].before + FromKey(members[0], MembersTail(members, rest))
    ensures MembersTail(members, rest)[1..] == if |members| == 1 then rest else SpellMembers(members[1..]) + rest
  {
    var x := members[0];
    var key := "\"" + SpellUnits(x.key) + "\"";
    if |members| == 1 {
      Chain(x.before, key, x.beforeColon, x.afterColon, Spell(x.tree), x.after, "}", rest);
      DropFirst("}", rest);
    } else {
      var more := SpellMembers(members[1..]);
      Chain(x.before, key, x.beforeColon, x.afterColon, Spell(x.tree), x.after, "," + more, rest);
      AppendAssoc(",", more, rest);
      DropFirst(",", more + rest);
    }
  }

  lemma Chain(a: string, b: string, c: string, d: string, e: string, f: string, g: string, h: string)
    ensures a + b + c + ":" + d + e + f + g + h == a + (b + (c + (":" + (d + (e + (f + (g + h)))))))
  {
    AppendAssoc(a + b + c + ":" + d + e + f, g, h);
    AppendAssoc(a + b + c + ":" + d + e, f, g + h);
    AppendAssoc(a + b + c + ":" + d, e, f + (g + h));
    AppendAssoc(a + b + c + ":", d, e + (f + (g + h)));
    Reassociate(a, b, c, ":", d + (e + (f + (g + h))));
  }

  lemma {:induction false} ReadsRecord(fits: string -> bool, pad: string, members: seq<Member>, rest: string, depth: nat)
    requires TreeOk(Record(pad, members), depth) && NumbersFit(fits, Record(pad, members))
    ensures ReadValue(fits, Spell(Record(pad, members)) + rest, depth) == Some((Value(Record(pad, members), depth), rest))
    decreases members, 3
  {
    if members == [] {
      ReadsEmpty(fits, pad, rest, depth);
    } else {
      ReadsMembers(fits, members, rest, depth - 1, []);
      FirstMember(members, rest, depth - 1);
      ReadsOpened(fits, SpellMembers(members), rest, depth, Fields([], members, depth - 1));
    }
  }

  lemma ReadsOpened(fits: string -> bool, text: string, rest: string, depth: nat, fields: seq<(string, Json)>)
    requires depth > 0 && SkipSpace(text + rest) != "" && SkipSpace(text + rest)[0] != '}'
    requires ReadMembers(fits, text + rest, depth - 1, []) == Some((fields, rest))
    ensures ReadValue(fits, "{" + text + rest, depth) == Some((Obj(fields), rest))
  {
    RecordOpens(fits, text + rest, depth);
    AppendAssoc("{", text, rest);
  }

  /** A record with members does not look empty. */
  lemma FirstMember(members: seq<Member>, rest: string, depth: nat)
    requires members != [] && MembersOk(members, depth)
    ensures var u := SkipSpace(SpellMembers(members) + rest); u != "" && u[0] == '"'
  {
    MembersSplit(members, rest);
    SkipBlank(members[0].before, FromKey(members[0], MembersTail(members, rest)));
  }

  /** A member whose value reads as it should. */
  lemma ReadsMember(fits: string -> bool, x: Member, v: Json, tail: string, depth: nat, before: seq<(string, Json)>)
    requires MemberSpaced(x) && tail != "" && (tail[0] == ',' || tail[0] == '}')
    requires ReadValue(fits, x.afterColon + (Spell(x.tree) + (x.after + tail)), depth) == Some((v, x.after + tail))
    ensures ReadMembers(fits, FromKey(x, tail), depth, before) ==
            if tail[0] == '}' then Some((Put(before, Decoded(x.key), v), tail[1..]))
            else ReadMembers(fits, tail[1..], depth, Put(before, Decoded(x.key), v))
  {
    var fromValue := x.afterColon + (Spell(x.tree) + (x.after + tail));
    var fromColon := ":" + fromValue;
    assert fromColon[1..] == fromValue;
    QuotedReads(x.key, x.beforeColon + fromColon);
    SkipBlank(x.beforeColon, fromColon);
    SkipBlank(x.after, tail);
  }

  lemma SkipToKey(fits: string -> bool, w: string, s: string, depth: nat, before: seq<(string, Json)>)
    requires Blank(w)
    ensures ReadMembers(fits, w + s, depth, before) == ReadMembers(fits, s, depth, before)
  {
    SkipBlank(w, s);
    SkipFirst(fits, w + s, depth, before);
    SkipFirst(fits, s, depth, before);
  }

  lemma {:induction false} ReadsMembers(fits: string -> bool, members: seq<Member>, rest: string, depth: nat, before: seq<(string, Json)>)
    requires members != [] && MembersOk(members, depth) && MembersFit(fits, members)
    ensures ReadMembers(fits, SpellMembers(members) + rest, depth, before) == Some((Fields(before, members, depth), rest))
    decreases members, 1
  {
    var x, tail := members[0], MembersTail(members, rest);
    TailStops(x.after, tail);
    ReadsTree(fits, x.tree, x.afterColon, x.after + tail, depth);
    if |members| > 1 {
      ReadsMembers(fits, members[1..], rest, depth, Put(before, Decoded(x.key), Value(x.tree, depth)));
    }
    ReadsFirst(fits, members, rest, depth, before);
  }

  lemma ReadsFirst(fits: string -> bool, members: seq<Member>, rest: string, depth: nat, before: seq<(string, Json)>)
    requires members != [] && MembersOk(members, depth)
    requires var x, after := members[0], members[0].after + MembersTail(members, rest);
             ReadValue(fits, x.afterColon + (Spell(x.tree) + after), depth) == Some((Value(x.tree, depth), after))
    requires |members| > 1 ==>
               var before' := Put(before, Decoded(members[0].key), Value(members[0].tree, depth));
               ReadMembers(fits, SpellMembers(members[1..]) + rest, depth, before') == Some((Fields(before', members[1..], depth), rest))
    ensures ReadMembers(fits, SpellMembers(members) + rest, depth, before) == Some((Fields(before, members, depth), rest))
  {
    var x, tail := members[0], MembersTail(members, rest);
    MembersSplit(members, rest);
    SkipToKey(fits, x.before, FromKey(x, tail), depth, before);
    ReadsMember(fits, x, Value(x.tree, depth), tail, depth, before);
  }

  // ----------------------------------------------------- what is read is written so

  lemma {:induction false} FindTree(fits: string -> bool, s: string, depth: nat) returns (w: string, t: Tree)
    requires ReadValue(fits, s, depth).Some?
    ensures var (v, rest) := ReadValue(fits, s, depth).value;
            Blank(w) && TreeOk(t, depth) && NumbersFit(fits, t) && s == w + (Spell(t) + rest) && Value(t, depth) == v
    decreases |s|, 1
  {
    w := LeadingBlank(s);
    var u := SkipSpace(s);
    if u[0] == '"' {
      t := FindText(fits, s, u, depth);
    } else if u[0] == '[' {
      t := FindList(fits, s, u, depth);
    } else if u[0] == '{' {
      t := FindRecord(fits, s, u, depth);
    } else if u[0] == 'n' || u[0] == 't' || u[0] == 'f' {
      t := FindWord(fits, s, u, depth);
    } else {
      t := FindNumber(fits, s, u, depth);
    }
  }

  lemma FindText(fits: string -> bool, s: string, u: string, depth: nat) returns (t: Tree)
    requires u == SkipSpace(s) && u != "" && u[0] == '"' && ReadValue(fits, s, depth).Some?
    ensures var (v, rest) := ReadValue(fits, s, depth).value;
            TreeOk(t, depth) && NumbersFit(fits, t) && u == Spell(t) + rest && Value(t, depth) == v
  {
    var us := FindUnits(u[1..]);
    t := Text(us);
    assert u == "\"" + u[1..];
    KeyJoined(us, ReadValue(fits, s, depth).value.1);
  }

  lemma FindNumber(fits: string -> bool, s: string, u: string, depth: nat) returns (t: Tree)
    requires u == SkipSpace(s) && u != "" && u[0] !in {'"', '[', '{', 'n', 't', 'f'} && ReadValue(fits, s, depth).Some?
    ensures var (v, rest) := ReadValue(fits, s, depth).value;
            TreeOk(t, depth) && NumbersFit(fits, t) && u == Spell(t) + rest && Value(t, depth) == v
  {
    var n := NumRun(u);
    NumberIff(u[..n]);
    t := Number(u[..n]);
    assert u == u[..n] + u[n..];
  }

  lemma FindWord(fits: string -> bool, s: string, u: string, depth: nat) returns (t: Tree)
    requires u == SkipSpace(s) && u != "" && (u[0] == 'n' || u[0] == 't' || u[0] == 'f') && ReadValue(fits, s, depth).Some?
    ensures var (v, rest) := ReadValue(fits, s, depth).value;
            TreeOk(t, depth) && NumbersFit(fits, t) && u == Spell(t) + rest && Value(t, depth) == v
  {
    var name := if u[0] == 'n' then "null" else if u[0] == 't' then "true" else "false";
    t := Word(name);
    assert u == name + u[|name|..];
  }

  lemma {:induction false} FindList(fits: string -> bool, s: string, u: string, depth: nat) returns (t: Tree)
    requires u == SkipSpace(s) && u != "" && u[0] == '[' && ReadValue(fits, s, depth).Some?
    ensures var (v, rest) := ReadValue(fits, s, depth).value;
            TreeOk(t, depth) && NumbersFit(fits, t) && u == Spell(t) + rest && Value(t, depth) == v
    decreases |s|, 0
  {
    var w := LeadingBlank(u[1..]);
    var r := SkipSpace(u[1..]);
    var rest := ListStages(fits, s, u, r, depth);
    if r[0] == ']' {
      t := List(w, []);
      Around("[", w, "]", rest);
    } else {
      var items := FindItems(fits, w, r, depth - 1);
      t := List("", items);
      AppendAssoc("[", SpellItems(items), rest);
    }
  }

  /** What is left to read after an opening bracket. */
  lemma ListStages(fits: string -> bool, s: string, u: string, r: string, depth: nat) returns (rest: string)
    requires u == SkipSpace(s) && u != "" && u[0] == '[' && r == SkipSpace(u[1..]) && ReadValue(fits, s, depth).Some?
    ensures rest == ReadValue(fits, s, depth).value.1 && u == "[" + u[1..] && depth > 0 && r != "" && |r| < |s|
    ensures r[0] == ']' ==> r == "]" + rest && ReadValue(fits, s, depth).value.0 == Arr([])
    ensures r[0] != ']' ==> ReadItems(fits, r, depth - 1).Some?
    ensures r[0] != ']' ==>
              var (vs, end) := ReadItems(fits, r, depth - 1).value; end == rest && ReadValue(fits, s, depth).value.0 == Arr(vs)
  {
    rest := ReadValue(fits, s, depth).value.1;
    Headed(u);
    Headed(r);
  }

  lemma Around(a: string, b: string, c: string, rest: string)
    ensures a + b + c + rest == a + (b + (c + rest))
  {
    AppendAssoc(a + b, c, rest);
    AppendAssoc(a, b, c + rest);
  }

  lemma {:induction false} FindRecord(fits: string -> bool, s: string, u: string, depth: nat) returns (t: Tree)
    requires u == SkipSpace(s) && u != "" && u[0] == '{' && ReadValue(fits, s, depth).Some?
    ensures var (v, rest) := ReadValue(fits, s, depth).value;
            TreeOk(t, depth) && NumbersFit(fits, t) && u == Spell(t) + rest && Value(t, depth) == v
    decreases |s|, 0
  {
    var w := LeadingBlank(u[1..]);
    var r := SkipSpace(u[1..]);
    var rest := RecordStages(fits, s, u, r, depth);
    if r[0] == '}' {
      t := Record(w, []);
      Around("{", w, "}", rest);
    } else {
      var members := FindMembers(fits, w, r, depth - 1, []);
      t := Record("", members);
      AppendAssoc("{", SpellMembers(members), rest);
    }
  }

  /** What is left to read after an opening brace. */
  lemma RecordStages(fits: string -> bool, s: string, u: string, r: string, depth: nat) returns (rest: string)
    requires u == SkipSpace(s) && u != "" && u[0] == '{' && r == SkipSpace(u[1..]) && ReadValue(fits, s, depth).Some?
    ensures rest == ReadValue(fits, s, depth).value.1 && u == "{" + u[1..] && depth > 0 && |r| < |s|
    ensures r == "" || r[0] != '}' ==> ReadMembers(fits, r, depth - 1, []).Some?
    ensures r != "" && r[0] == '}' ==> r == "}" + rest && ReadValue(fits, s, depth).value.0 == Obj([])
    ensures r == "" || r[0] != '}' ==>
              var (fs, end) := ReadMembers(fits, r, depth - 1, []).value; end == rest && ReadValue(fits, s, depth).value.0 == Obj(fs)
    ensures r != ""
  {
    rest := ReadValue(fits, s, depth).value.1;
    Headed(u);
    Headed(r);
  }

  /** `w` is white space already passed. */
  lemma {:induction false} FindItems(fits: string -> bool, w: string, s: string, depth: nat) returns (items: seq<Item>)
    requires Blank(w) && ReadItems(fits, s, depth).Some?
    ensures var (vs, rest) := ReadItems(fits, s, depth).value;
            && items != [] && ItemsOk(items, depth) && ItemsFit(fits, items)
            && w + s == SpellItems(items) + rest && Values(items, depth) == vs
    decreases |s|, 2
  {
    var rest := ReadItems(fits, s, depth).value.1;
    var w1, t := FindTree(fits, s, depth);
    var afterValue := ReadValue(fits, s, depth).value.1;
    var w2 := LeadingBlank(afterValue);
    var r := SkipSpace(afterValue);
    var x := Item(w + w1, t, w2);
    Headed(r);
    var more: seq<Item> := [];
    if r[0] == ',' {
      more := FindItems(fits, "", r[1..], depth);
      assert "" + r[1..] == r[1..];
    }
    items := [x] + more;
    AppendAssoc(w, w1, Spell(t) + afterValue);
    ItemsFound(fits, w + s, depth, x, more, rest);
  }

  lemma ItemsFound(fits: string -> bool, s: string, depth: nat, x: Item, more: seq<Item>, rest: string)
    requires Blank(x.before) && Blank(x.after) && TreeOk(x.tree, depth) && NumbersFit(fits, x.tree)
    requires ItemsOk(more, depth) && ItemsFit(fits, more)
    requires s == x.before + (Spell(x.tree) + (x.after + if more == [] then "]" + rest else "," + (SpellItems(more) + rest)))
    ensures var items := [x] + more;
            && ItemsOk(items, depth) && ItemsFit(fits, items) && s == SpellItems(items) + rest
            && Values(items, depth) == [Value(x.tree, depth)] + Values(more, depth)
  {
    ItemsJoined(x, more, rest);
    ValuesStep(x, more, depth);
  }

  lemma ItemsJoined(x: Item, more: seq<Item>, rest: string)
    ensures var items := [x] + more;
            SpellItems(items) + rest ==
            x.before + (Spell(x.tree) + (x.after + if more == [] then "]" + rest else "," + (SpellItems(more) + rest)))
  {
    var items := [x] + more;
    assert items[1..] == more;
    ItemsSplit(items, rest);
  }

  lemma ValuesStep(x: Item, more: seq<Item>, depth: nat)
    requires Blank(x.before) && Blank(x.after) && TreeOk(x.tree, depth) && ItemsOk(more, depth)
    ensures ItemsOk([x] + more, depth)
    ensures Values([x] + more, depth) == [Value(x.tree, depth)] + Values(more, depth)
  {
    assert ([x] + more)[1..] == more && ([x] + more)[0] == x;
  }

  lemma {:induction false} FindMembers(fits: string -> bool, w: string, s: string, depth: nat, before: seq<(string, Json)>)
    returns (members: seq<Member>)
    requires Blank(w) && ReadMembers(fits, s, depth, before).Some?
    ensures var (fields, rest) := ReadMembers(fits, s, depth, before).value;
            && members != [] && MembersOk(members, depth) && MembersFit(fits, members)
            && w + s == SpellMembers(members) + rest && Fields(before, members, depth) == fields
    decreases |s|, 2
  {
    var rest := ReadMembers(fits, s, depth, before).value.1;
    var x, r := FindMember(fits, w, s, depth, before);
    Headed(r);
    var more: seq<Member> := [];
    if r[0] == ',' {
      more := FindMembers(fits, "", r[1..], depth, Put(before, Decoded(x.key), Value(x.tree, depth)));
      assert "" + r[1..] == r[1..];
    }
    members := [x] + more;
    MembersFound(fits, w, s, depth, before, x, more, rest);
  }

  lemma MembersFound(fits: string -> bool, w: string, s: string, depth: nat, before: seq<(string, Json)>, x: Member, more: seq<Member>, rest: string)
    requires MemberSpaced(x) && TreeOk(x.tree, depth) && NumbersFit(fits, x.tree)
    requires MembersOk(more, depth) && MembersFit(fits, more)
    requires w + s == x.before + FromKey(x, if more == [] then "}" + rest else "," + (SpellMembers(more) + rest))
    ensures var members := [x] + more;
            && MembersOk(members, depth) && MembersFit(fits, members) && w + s == SpellMembers(members) + rest
            && Fields(before, members, depth) == Fields(Put(before, Decoded(x.key), Value(x.tree, depth)), more, depth)
  {
    MembersJoined(x, more, rest);
    FieldsStep(before, x, more, depth);
  }

  /** The first member, and the text from the comma or brace after it. */
  lemma {:induction false} FindMember(fits: string -> bool, w: string, s: string, depth: nat, before: seq<(string, Json)>)
    returns (x: Member, r: string)
    requires Blank(w) && ReadMembers(fits, s, depth, before).Some?
    ensures MemberSpaced(x) && TreeOk(x.tree, depth) && NumbersFit(fits, x.tree) && |r| < |s|
    ensures w + s == x.before + FromKey(x, r) && r != "" && (r[0] == ',' || r[0] == '}')
    ensures var before' := Put(before, Decoded(x.key), Value(x.tree, depth));
            ReadMembers(fits, s, depth, before) ==
            if r[0] == '}' then Some((before', r[1..])) else ReadMembers(fits, r[1..], depth, before')
    decreases |s|, 1
  {
    var key, afterKey, afterColon, afterValue, r0 := MemberStages(fits, s, depth, before);
    r := r0;
    var w1 := LeadingBlank(s);
    var us := FindUnits(key);
    var w2 := LeadingBlank(afterKey);
    var w3, t := FindTree(fits, afterColon, depth);
    var w4 := LeadingBlank(afterValue);
    x := Member(w + w1, us, w2, w3, t, w4);
    MemberJoined(w, w1, x, s, afterKey, afterValue, r);
  }

  /** What is left to read at each stage of a member. */
  lemma MemberStages(fits: string -> bool, s: string, depth: nat, before: seq<(string, Json)>)
    returns (key: string, afterKey: string, afterColon: string, afterValue: string, r: string)
    requires ReadMembers(fits, s, depth, before).Some?
    ensures SkipSpace(s) == "\"" + key && ReadString(key).Some? && ReadString(key).value.1 == afterKey
    ensures SkipSpace(afterKey) == ":" + afterColon && ReadValue(fits, afterColon, depth).Some?
    ensures ReadValue(fits, afterColon, depth).value.1 == afterValue && SkipSpace(afterValue) == r
    ensures |key| < |s| && |afterColon| < |s| && |r| < |s| && r != "" && (r[0] == ',' || r[0] == '}')
    ensures var before' := Put(before, ReadString(key).value.0, ReadValue(fits, afterColon, depth).value.0);
            ReadMembers(fits, s, depth, before) ==
            if r[0] == '}' then Some((before', r[1..])) else ReadMembers(fits, r[1..], depth, before')
  {
    key := SkipSpace(s)[1..];
    afterKey := ReadString(key).value.1;
    afterColon := SkipSpace(afterKey)[1..];
    afterValue := ReadValue(fits, afterColon, depth).value.1;
    r := SkipSpace(afterValue);
    Headed(SkipSpace(s));
    Headed(SkipSpace(afterKey));
  }

  lemma Headed(s: string)
    requires s != ""
    ensures s == [s[0]] + s[1..]
  {
  }

  lemma MemberJoined(w: string, w1: string, x: Member, s: string, afterKey: string, afterValue: string, r: string)
    requires x.before == w + w1 && s == w1 + ("\"" + Closed(x.key, afterKey))
    requires afterKey == x.beforeColon + (":" + (x.afterColon + (Spell(x.tree) + afterValue)))
    requires afterValue == x.after + r
    ensures w + s == x.before + FromKey(x, r)
  {
    KeyJoined(x.key, afterKey);
    AppendAssoc(w, w1, "\"" + Closed(x.key, afterKey));
  }

  lemma KeyJoined(us: seq<Unit>, rest: string)
    ensures "\"" + Closed(us, rest) == "\"" + SpellUnits(us) + "\"" + rest
  {
  }

  lemma MembersJoined(x: Member, more: seq<Member>, rest: string)
    ensures SpellMembers([x] + more) + rest ==
            x.before + FromKey(x, if more == [] then "}" + rest else "," + (SpellMembers(more) + rest))
  {
    var members := [x] + more;
    assert members[1..] == more;
    MembersSplit(members, rest);
  }

  lemma FieldsStep(before: seq<(string, Json)>, x: Member, more: seq<Member>, depth: nat)
    requires MemberSpaced(x) && TreeOk(x.tree, depth) && MembersOk(more, depth)
    ensures MembersOk([x] + more, depth)
    ensures Fields(before, [x] + more, depth) ==
            Fields(Put(before, Decoded(x.key), Value(x.tree, depth)), more, depth)
  {
    assert ([x] + more)[1..] == more && ([x] + more)[0] == x;
  }

  // ------------------------------------------------------------- repeated members

  /** The i-th member is the last one of its name. */
  ghost predicate LastOfName(members: seq<Member>, i: nat, depth: nat)
    requires MembersOk(members, depth)
  {
    i < |members| && forall j :: i < j < |members| ==> Decoded(members[j].key) != Decoded(members[i].key)
  }

  /** `f` is what the i-th member says. */
  ghost predicate SaidBy(f: (string, Json), members: seq<Member>, i: nat, depth: nat)
    requires MembersOk(members, depth)
  {
    LastOfName(members, i, depth) && f == (Decoded(members[i].key), Value(members[i].tree, depth))
  }

  /** No member has the name `k`. */
  ghost predicate Unnamed(members: seq<Member>, k: string, depth: nat)
    requires MembersOk(members, depth)
  {
    forall j :: 0 <= j < |members| ==> Decoded(members[j].key) != k
  }

  lemma PutHas(fields: seq<(string, Json)>, k: string, v: Json, f: (string, Json))
    requires Sorted(fields)
    ensures Sorted(Put(fields, k, v))
    ensures f in Put(fields, k, v) <==> f == (k, v) || (f in fields && f.0 != k)
  {
    PutSorted(fields, k, v);
    var p := Put(fields, k, v);
    if f in p && f.0 == k {
      SortedUnique(p, f, (k, v));
    }
  }

  lemma SortedUnique(fields: seq<(string, Json)>, f: (string, Json), g: (string, Json))
    requires Sorted(fields) && f in fields && g in fields && f.0 == g.0
    ensures f == g
  {
    LessTotal(f.0, g.0);
  }

  lemma {:induction false} FieldsHave(before: seq<(string, Json)>, members: seq<Member>, depth: nat, f: (string, Json))
    requires Sorted(before) && MembersOk(members, depth)
    ensures Sorted(Fields(before, members, depth))
    ensures f in Fields(before, members, depth) <==>
            (exists i: nat :: SaidBy(f, members, i, depth)) || (f in before && Unnamed(members, f.0, depth))
    decreases |members|
  {
    if members != [] {
      var k, v := Decoded(members[0].key), Value(members[0].tree, depth);
      PutHas(before, k, v, f);
      FieldsHave(Put(before, k, v), members[1..], depth, f);
      SaidStep(members, depth, f);
    }
  }

  lemma SaidStep(members: seq<Member>, depth: nat, f: (string, Json))
    requires members != [] && MembersOk(members, depth)
    ensures var k := Decoded(members[0].key);
            && (Unnamed(members, f.0, depth) <==> k != f.0 && Unnamed(members[1..], f.0, depth))
            && ((exists i: nat :: SaidBy(f, members, i, depth)) <==>
                (exists i: nat :: SaidBy(f, members[1..], i, depth))
                || (f == (k, Value(members[0].tree, depth)) && Unnamed(members[1..], f.0, depth)))
  {
    var more := members[1..];
    assert forall j :: 0 <= j < |more| ==> more[j] == members[j + 1];
    assert forall j :: 1 <= j < |members| ==> members[j] == more[j - 1];
    if i: nat :| SaidBy(f, more, i, depth) {
      assert SaidBy(f, members, i + 1, depth);
    }
    if i: nat :| SaidBy(f, members, i, depth) {
      if i > 0 {
        assert SaidBy(f, more, i - 1, depth);
      }
    }
    if f == (Decoded(members[0].key), Value(members[0].tree, depth)) && Unnamed(more, f.0, depth) {
      assert SaidBy(f, members, 0, depth);
    }
  }

  /** An object holds, under increasing keys, exactly what the last member of each name
      says. */
  lemma LastMemberWins(pad: string, members: seq<Member>, depth: nat, f: (string, Json))
    requires TreeOk(Record(pad, members), depth + 1)
    ensures var fields := Value(Record(pad, members), depth + 1).fields;
            && (forall i, j :: 0 <= i < j < |fields| ==> Less(fields[i].0, fields[j].0))
            && (f in fields <==> exists i: nat :: SaidBy(f, members, i, depth))
  {
    FieldsHave([], members, depth, f);
  }

  // ------------------------------------------------------------------ the theorem

  /** The decoder reads exactly the JSON texts, each as its value: white space, escapes,
      numbers, nesting up to the limit and repeated members included. */
  lemma ParseIff(fits: string -> bool, s: string, v: Json)
    ensures Parse(fits, s) == Some(v) <==> Derives(fits, s, v)
  {
    if Parse(fits, s) == Some(v) {
      var before, t := FindTree(fits, s, MAX_DEPTH);
      var rest := ReadValue(fits, s, MAX_DEPTH).value.1;
      var after := LeadingBlank(rest);
      assert after + "" == after;
      AppendAssoc(before, Spell(t), after);
    }
    if before, t, after :|
      && Blank(before) && Blank(after) && TreeOk(t, 10000) && NumbersFit(fits, t)
      && s == before + Spell(t) + after && v == Value(t, 10000)
    {
      AppendAssoc(before, Spell(t), after);
      assert Stops(after);
      ReadsTree(fits, t, before, after, MAX_DEPTH);
      SkipBlank(after, "");
      assert after + "" == after;
    }
  }
}
