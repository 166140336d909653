/** The texts JSON values are read from and written to (RFC 8259). A number that
    does not fit the decoder's number type makes the whole text unreadable. */
module JsonText {

  import opened Prelude
  import opened Json

  /** The nesting the decoder accepts. */
  const MAX_DEPTH: nat := 10000

  // ---------------------------------------------------------------- reading

  predicate Space(c: char) { c == ' ' || c == '\t' || c == '\n' || c == '\r' }

  function SkipSpace(s: string): (r: string)
    ensures |r| <= |s| && (r != "" ==> !Space(r[0]))
    ensures s != "" && !Space(s[0]) ==> r == s
  {
    if s != "" && Space(s[0]) then SkipSpace(s[1..]) else s
  }

  predicate Digit(c: char) { '0' <= c <= '9' }

  predicate NumChar(c: char) { Digit(c) || c == '+' || c == '-' || c == '.' || c == 'e' || c == 'E' }

  /** The length of the longest run of number characters at the front. */
  function NumRun(s: string): (n: nat)
    ensures n <= |s| && (n < |s| ==> !NumChar(s[n])) && forall i :: 0 <= i < n ==> NumChar(s[i])
  {
    if s != "" && NumChar(s[0]) then 1 + NumRun(s[1..]) else 0
  }

  /** The position after the digits at `i`. */
  function Digits(s: string, i: nat): (j: nat)
    requires i <= |s|
    ensures i <= j <= |s|
    decreases |s| - i
  {
    if i < |s| && Digit(s[i]) then Digits(s, i + 1) else i
  }

  /** Number tokens of section 6: sign, integer part without leading zeros,
      fraction and exponent. */
  predicate Number(t: string) {
    var a := if t != "" && t[0] == '-' then 1 else 0;
    var b := Digits(t, a);
    && a < b && (t[a] == '0' ==> b == a + 1)
    && var c := if b < |t| && t[b] == '.' then Digits(t, b + 1) else b;
    && (b < |t| && t[b] == '.' ==> c > b + 1)
    && (c == |t|
        || ((t[c] == 'e' || t[c] == 'E')
            && var d := if c + 1 < |t| && (t[c + 1] == '+' || t[c + 1] == '-') then c + 2 else c + 1;
            d < |t| && Digits(t, d) == |t|))
  }

  /** The value of a string of digits. */
  function Numeral(s: string): nat {
    if s == "" then 0
    else
      var last := s[|s| - 1];
      10 * Numeral(s[..|s| - 1]) + if Digit(last) then last as nat - '0' as nat else 0
  }

  /** The value of an exponent part, its letter included. */
  function Exponent(s: string): int {
    if s == "" then 0
    else if |s| > 1 && s[1] == '-' then 0 - Numeral(s[2..])
    else if |s| > 1 && s[1] == '+' then Numeral(s[2..])
    else Numeral(s[1..])
  }

  const TWO_TO_THE_194: int := 0x4_0000_0000_0000_0000_0000_0000_0000_0000_0000_0000_0000_0000

  /** Half a unit above the largest 64-bit float, from where on values round to
      infinity: fifty-four ones and nine hundred and seventy zeros. */
  const FLOAT_LIMIT: int :=
    0x3F_FFFF_FFFF_FFFF * TWO_TO_THE_194 * TWO_TO_THE_194 * TWO_TO_THE_194 * TWO_TO_THE_194 * TWO_TO_THE_194

  predicate Below(m: nat, exponent: int, limit: int) {
    if exponent >= 0 then m * Pow(10, exponent) < limit else m < limit * Pow(10, -exponent)
  }

  /** The number a token stands for rounds to a finite 64-bit float. */
  predicate Float64(t: string) {
    var a := if t != "" && t[0] == '-' then 1 else 0;
    var b := Digits(t, a);
    var c := if b < |t| && t[b] == '.' then Digits(t, b + 1) else b;
    if c == b then Below(Numeral(t[a..b]), Exponent(t[b..]), FLOAT_LIMIT)
    else Below(Numeral(t[a..b] + t[b + 1..c]), Exponent(t[c..]) - (c - b - 1), FLOAT_LIMIT)
  }

  /** Whatever the grammar calls a number. */
  predicate AnyNumber(t: string) { true }

  function HexVal(c: char): Option<nat> {
    if '0' <= c <= '9' then Some(c as nat - '0' as nat)
    else if 'a' <= c <= 'f' then Some(c as nat - 'a' as nat + 10)
    else if 'A' <= c <= 'F' then Some(c as nat - 'A' as nat + 10)
    else None
  }

  /** Four hexadecimal digits. */
  function Hex4(s: string): (r: Option<nat>)
    ensures r.Some? ==> |s| >= 4 && r.value < 0x10000
  {
    if |s| < 4 then None
    else
      var a, b, c, d := HexVal(s[0]), HexVal(s[1]), HexVal(s[2]), HexVal(s[3]);
      if a.None? || b.None? || c.None? || d.None? then None
      else Some(0x1000 * a.value + 0x100 * b.value + 0x10 * c.value + d.value)
  }

  const REPLACEMENT: char := 0xFFFD as char

  /** One escape, after its backslash: the character and what follows. Halves of
      surrogate pairs combine; a lone half is replaced. */
  function Escape(s: string): (r: Option<(char, string)>)
    ensures r.Some? ==> |r.value.1| < |s|
  {
    if s == "" then None
    else if s[0] == '"' || s[0] == '\\' || s[0] == '/' then Some((s[0], s[1..]))
    else if s[0] == 'b' then Some((8 as char, s[1..]))
    else if s[0] == 'f' then Some((12 as char, s[1..]))
    else if s[0] == 'n' then Some(('\n', s[1..]))
    else if s[0] == 'r' then Some(('\r', s[1..]))
    else if s[0] == 't' then Some(('\t', s[1..]))
    else if s[0] != 'u' then None
    else
      var h := Hex4(s[1..]);
      if h.None? then None
      else if !(0xD800 <= h.value < 0xE000) then Some((h.value as char, s[5..]))
      else
        var l := if |s| > 7 && s[5] == '\\' && s[6] == 'u' then Hex4(s[7..]) else None;
        if h.value < 0xDC00 && l.Some? && 0xDC00 <= l.value < 0xE000
        then Some(((0x10000 + (h.value - 0xD800) * 0x400 + (l.value - 0xDC00)) as char, s[11..]))
        else Some((REPLACEMENT, s[5..]))
  }

  /** The rest of a string literal after its opening quote. */
  function ReadString(s: string): (r: Option<(string, string)>)
    ensures r.Some? ==> |r.value.0| + |r.value.1| < |s|
    decreases |s|
  {
    if s == "" || s[0] < ' ' then None
    else if s[0] == '"' then Some(("", s[1..]))
    else
      var head := if s[0] == '\\' then Escape(s[1..]) else Some((s[0], s[1..]));
      if head.None? then None
      else
        match ReadString(head.value.1)
        case None => None
        case Some((t, rest)) => Some(([head.value.0] + t, rest))
  }

  /** Sets a member of a key-ordered object; a later duplicate replaces. */
  function Put(fields: seq<(string, Json)>, k: string, v: Json): seq<(string, Json)> {
    if fields == [] then [(k, v)]
    else
      var last := fields[|fields| - 1];
      if last.0 == k then fields[..|fields| - 1] + [(k, v)]
      else if Less(last.0, k) then fields + [(k, v)]
      else Put(fields[..|fields| - 1], k, v) + [last]
  }

  function Literal(s: string, word: string, v: Json): (r: Option<(Json, string)>)
    requires word != ""
    ensures r.Some? ==> |r.value.1| < |s|
  {
    if word <= s then Some((v, s[|word|..])) else None
  }

  /** One value with up to `depth` levels of nesting, and what follows it. */
  function ReadValue(fits: string -> bool, s: string, depth: nat): (r: Option<(Json, string)>)
    ensures r.Some? ==> |r.value.1| < |s|
    decreases |s|, 1
  {
    var t := SkipSpace(s);
    if t == "" then None
    else if t[0] == '"' then
      match ReadString(t[1..])
      case None => None
      case Some((str, rest)) => Some((Str(str), rest))
    else if t[0] == '[' then
      var u := SkipSpace(t[1..]);
      if depth == 0 then None
      else if u != "" && u[0] == ']' then Some((Arr([]), u[1..]))
      else
        match ReadItems(fits, u, depth - 1)
        case None => None
        case Some((items, rest)) => Some((Arr(items), rest))
    else if t[0] == '{' then
      var u := SkipSpace(t[1..]);
      if depth == 0 then None
      else if u != "" && u[0] == '}' then Some((Obj([]), u[1..]))
      else
        match ReadMembers(fits, u, depth - 1, [])
        case None => None
        case Some((fields, rest)) => Some((Obj(fields), rest))
    else if t[0] == 'n' then Literal(t, "null", Null)
    else if t[0] == 't' then Literal(t, "true", Bool(true))
    else if t[0] == 'f' then Literal(t, "false", Bool(false))
    else
      var n := NumRun(t);
      if Number(t[..n]) && fits(t[..n]) then Some((Num(t[..n]), t[n..])) else None
  }

  /** The items of an array up to and including its closing bracket. */
  function ReadItems(fits: string -> bool, s: string, depth: nat): (r: Option<(seq<Json>, string)>)
    ensures r.Some? ==> |r.value.1| < |s|
    decreases |s|, 2
  {
    match ReadValue(fits, s, depth)
    case None => None
    case Some((v, rest)) =>
      var t := SkipSpace(rest);
      if t == "" then None
      else if t[0] == ']' then Some(([v], t[1..]))
      else if t[0] != ',' then None
      else
        match ReadItems(fits, t[1..], depth)
        case None => None
        case Some((vs, end)) => Some(([v] + vs, end))
  }

  /** The members of an object up to and including its closing brace, on top of
      those before them. */
  function ReadMembers(fits: string -> bool, s: string, depth: nat, before: seq<(string, Json)>): (r: Option<(seq<(string, Json)>, string)>)
    ensures r.Some? ==> |r.value.1| < |s|
    decreases |s|, 2
  {
    var t := SkipSpace(s);
    if t == "" || t[0] != '"' then None
    else
      match ReadString(t[1..])
      case None => None
      case Some((k, afterKey)) =>
        var u := SkipSpace(afterKey);
        if u == "" || u[0] != ':' then None
        else
          match ReadValue(fits, u[1..], depth)
          case None => None
          case Some((v, rest)) =>
            var w := SkipSpace(rest);
            if w == "" then None
            else if w[0] == '}' then Some((Put(before, k, v), w[1..]))
            else if w[0] != ',' then None
            else ReadMembers(fits, w[1..], depth, Put(before, k, v))
  }

  /** A whole text. */
  function Parse(fits: string -> bool, s: string): Option<Json> {
    match ReadValue(fits, s, MAX_DEPTH)
    case None => None
    case Some((v, rest)) => if SkipSpace(rest) == "" then Some(v) else None
  }

  // ---------------------------------------------------------------- writing

  function HexDigit(n: nat): char
    requires n < 16
  {
    if n < 10 then (n + '0' as nat) as char else (n - 10 + 'a' as nat) as char
  }

  function UnicodeEscape(n: nat): string
    requires n < 0x10000
  {
    ['\\', 'u', HexDigit(n / 0x1000), HexDigit(n / 0x100 % 16), HexDigit(n / 0x10 % 16), HexDigit(n % 16)]
  }

  predicate Escaped(c: char) {
    c < ' ' || c in ['<', '>', '&'] || c as nat == 0x2028 || c as nat == 0x2029
  }

  function WriteChar(c: char): string {
    if c == '"' || c == '\\' then ['\\', c]
    else if c as nat == 8 then "\\b"
    else if c as nat == 12 then "\\f"
    else if c == '\n' then "\\n"
    else if c == '\r' then "\\r"
    else if c == '\t' then "\\t"
    else if Escaped(c) then UnicodeEscape(c as nat)
    else [c]
  }

  function WriteChars(s: string): string {
    if s == "" then "" else WriteChar(s[0]) + WriteChars(s[1..])
  }

  function WriteString(s: string): string {
    "\"" + WriteChars(s) + "\""
  }

  function Print(v: Json): string
    decreases v, 0
  {
    match v
    case Null => "null"
    case Bool(b) => if b then "true" else "false"
    case Num(t) => t
    case Str(s) => WriteString(s)
    case Arr(items) => if items == [] then "[]" else "[" + PrintItems(items)
    case Obj(fields) => if fields == [] then "{}" else "{" + PrintMembers(fields)
  }

  /** Items and closing bracket. */
  function PrintItems(items: seq<Json>): string
    requires items != []
    decreases items, 1
  {
    Print(items[0]) + if |items| == 1 then "]" else "," + PrintItems(items[1..])
  }

  /** Members and closing brace. */
  function PrintMembers(fields: seq<(string, Json)>): string
    requires fields != []
    decreases fields, 1
  {
    var (k, v) := fields[0];
    assert v < fields[0];
    WriteString(k) + ":" + Print(v) + if |fields| == 1 then "}" else "," + PrintMembers(fields[1..])
  }
}
