/** What is written is read back, and what is read is well formed and no larger
    than its text. */
module JsonRoundTrip {

  import opened Prelude
  import opened Json
  import opened JsonText

  predicate Token(fits: string -> bool, t: string) {
    Number(t) && fits(t) && forall i :: 0 <= i < |t| ==> NumChar(t[i])
  }

  predicate Sorted(fields: seq<(string, Json)>) {
    forall i, j :: 0 <= i < j < |fields| ==> Less(fields[i].0, fields[j].0)
  }

  /** Well-formed number tokens, members in key order, and at most `depth` levels. */
  predicate Good(fits: string -> bool, v: Json, depth: nat) {
    match v
    case Num(t) => Token(fits, t)
    case Arr(items) => depth > 0 && forall i :: 0 <= i < |items| ==> Good(fits, items[i], depth - 1)
    case Obj(fields) => depth > 0 && Sorted(fields) && forall i :: 0 <= i < |fields| ==> Good(fits, fields[i].1, depth - 1)
    case _ => true
  }

  // ------------------------------------------------------------- round trip

  lemma HexRoundTrip(n: nat)
    requires n < 0x10000
    ensures Hex4(UnicodeEscape(n)[2..]) == Some(n)
  {
    var a, b, c, d := n / 0x1000, n / 0x100 % 16, n / 0x10 % 16, n % 16;
    HexDigitVal(a);
    HexDigitVal(b);
    HexDigitVal(c);
    HexDigitVal(d);
    HexSplit(n);
  }

  lemma HexSplit(n: nat)
    requires n < 0x10000
    ensures n == 0x1000 * (n / 0x1000) + 0x100 * (n / 0x100 % 16) + 0x10 * (n / 0x10 % 16) + n % 16
  {
    var a, b := n / 0x10, n / 0x100;
    assert n == 0x10 * a + n % 16;
    assert b == a / 16 && a == 16 * b + a % 16;
    assert n / 0x1000 == b / 16 && b == 16 * (b / 16) + b % 16;
  }

  lemma HexDigitVal(n: nat)
    requires n < 16
    ensures HexVal(HexDigit(n)) == Some(n)
  {
  }

  lemma Hex4Prefix(s: string, rest: string)
    requires |s| == 4
    ensures Hex4(s + rest) == Hex4(s)
  {
  }

  lemma UnicodeRoundTrip(c: char, rest: string)
    requires c as nat < 0xD800
    ensures Escape(UnicodeEscape(c as nat)[1..] + rest) == Some((c, rest))
  {
    var n := c as nat;
    var u := UnicodeEscape(n);
    HexRoundTrip(n);
    var s := u[1..] + rest;
    assert s[1..] == u[2..] + rest;
    Hex4Prefix(u[2..], rest);
    assert s[5..] == rest;
  }

  lemma CharRoundTrip(c: char, rest: string)
    ensures var w := WriteChar(c) + rest;
            && w != "" && w[0] >= ' ' && w[0] != '"'
            && (if w[0] == '\\' then Escape(w[1..]) == Some((c, rest)) else w == [c] + rest)
  {
    var e := WriteChar(c);
    var w := e + rest;
    if |e| == 2 {
      assert w[1..] == [e[1]] + rest && ([e[1]] + rest)[1..] == rest;
    } else if |e| == 6 {
      UnicodeRoundTrip(c, rest);
      assert w[1..] == e[1..] + rest;
    }
  }

  lemma {:induction false} StringRoundTrip(s: string, rest: string)
    ensures ReadString(WriteChars(s) + "\"" + rest) == Some((s, rest))
  {
    if s == "" {
      assert WriteChars(s) + "\"" + rest == "\"" + rest;
    } else {
      var tail := WriteChars(s[1..]) + "\"" + rest;
      var w := WriteChar(s[0]) + tail;
      assert WriteChars(s) + "\"" + rest == w;
      CharRoundTrip(s[0], tail);
      StringRoundTrip(s[1..], rest);
      assert w[0] != '\\' ==> w[1..] == tail;
      assert [s[0]] + s[1..] == s;
    }
  }

  lemma QuotedRoundTrip(s: string, rest: string)
    ensures var w := WriteString(s) + rest; w[0] == '"' && ReadString(w[1..]) == Some((s, rest))
  {
    var w := WriteString(s) + rest;
    assert w[1..] == WriteChars(s) + "\"" + rest;
    StringRoundTrip(s, rest);
  }

  /** Text that ends a number token. */
  predicate Stops(rest: string) {
    rest == "" || !NumChar(rest[0])
  }

  lemma {:induction false} NumRunOf(t: string, rest: string)
    requires (forall i :: 0 <= i < |t| ==> NumChar(t[i])) && Stops(rest)
    ensures NumRun(t + rest) == |t|
  {
    if t == "" {
      assert t + rest == rest;
    } else {
      assert (t + rest)[1..] == t[1..] + rest;
      NumRunOf(t[1..], rest);
    }
  }

  /** How a written value begins. */
  lemma FirstChar(fits: string -> bool, v: Json, depth: nat)
    requires Good(fits, v, depth)
    ensures var p := Print(v); p != "" && !Space(p[0]) && p[0] != ']' && p[0] != '}'
  {
    match v
    case Num(t) => assert Digits(t, 0) >= 0;
    case _ =>
  }

  lemma NumberRoundTrip(fits: string -> bool, t: string, rest: string, depth: nat)
    requires Token(fits, t) && Stops(rest)
    ensures ReadValue(fits, t + rest, depth) == Some((Num(t), rest))
  {
    FirstChar(fits, Num(t), 0);
    NumRunOf(t, rest);
    var s := t + rest;
    assert s[..|t|] == t && s[|t|..] == rest;
    assert NumChar(s[0]);
  }

  lemma LiteralRoundTrip(word: string, rest: string, v: Json)
    requires word != ""
    ensures Literal(word + rest, word, v) == Some((v, rest))
  {
    assert (word + rest)[..|word|] == word && (word + rest)[|word|..] == rest;
  }

  /** A written value is read back, whatever follows it. */
  lemma {:induction false} ValueRoundTrip(fits: string -> bool, v: Json, rest: string, depth: nat)
    requires Good(fits, v, depth) && Stops(rest)
    ensures ReadValue(fits, Print(v) + rest, depth) == Some((v, rest))
    decreases v, 0
  {
    FirstChar(fits, v, depth);
    match v
    case Null => LiteralRoundTrip("null", rest, v);
    case Bool(b) => LiteralRoundTrip(if b then "true" else "false", rest, v);
    case Num(t) => NumberRoundTrip(fits, t, rest, depth);
    case Str(str) => QuotedRoundTrip(str, rest);
    case Arr(items) => ArrayRoundTrip(fits, items, rest, depth);
    case Obj(fields) => ObjectRoundTrip(fits, fields, rest, depth);
  }

  lemma {:induction false} ArrayRoundTrip(fits: string -> bool, items: seq<Json>, rest: string, depth: nat)
    requires Good(fits, Arr(items), depth)
    ensures ReadValue(fits, Print(Arr(items)) + rest, depth) == Some((Arr(items), rest))
    decreases items, 2
  {
    if items == [] {
      EmptyText(fits, rest, depth);
    } else {
      FirstChar(fits, items[0], depth - 1);
      ItemsRoundTrip(fits, items, rest, depth - 1);
      ArrayText(fits, items, rest, depth);
    }
  }

  lemma {:induction false} ObjectRoundTrip(fits: string -> bool, fields: seq<(string, Json)>, rest: string, depth: nat)
    requires Good(fits, Obj(fields), depth)
    ensures ReadValue(fits, Print(Obj(fields)) + rest, depth) == Some((Obj(fields), rest))
    decreases fields, 2
  {
    if fields == [] {
      EmptyText(fits, rest, depth);
    } else {
      assert [] + fields == fields;
      MembersRoundTrip(fits, fields, rest, depth - 1, []);
      ObjectText(fits, fields, rest, depth);
    }
  }

  lemma EmptyText(fits: string -> bool, rest: string, depth: nat)
    requires depth > 0
    ensures ReadValue(fits, "[]" + rest, depth) == Some((Arr([]), rest))
    ensures ReadValue(fits, "{}" + rest, depth) == Some((Obj([]), rest))
  {
    assert ("[]" + rest)[1..] == "]" + rest && ("{}" + rest)[1..] == "}" + rest;
    DropFirst("]", rest);
    DropFirst("}", rest);
  }

  lemma ArrayText(fits: string -> bool, items: seq<Json>, rest: string, depth: nat)
    requires depth > 0 && items != []
    requires var p := PrintItems(items) + rest;
             p != "" && !Space(p[0]) && p[0] != ']' && ReadItems(fits, p, depth - 1) == Some((items, rest))
    ensures ReadValue(fits, Print(Arr(items)) + rest, depth) == Some((Arr(items), rest))
  {
    AppendAssoc("[", PrintItems(items), rest);
    DropFirst("[", PrintItems(items) + rest);
  }

  lemma ObjectText(fits: string -> bool, fields: seq<(string, Json)>, rest: string, depth: nat)
    requires depth > 0 && fields != []
    requires ReadMembers(fits, PrintMembers(fields) + rest, depth - 1, []) == Some((fields, rest))
    ensures ReadValue(fits, Print(Obj(fields)) + rest, depth) == Some((Obj(fields), rest))
  {
    AppendAssoc("{", PrintMembers(fields), rest);
    DropFirst("{", PrintMembers(fields) + rest);
  }

  lemma {:induction false} ItemsRoundTrip(fits: string -> bool, items: seq<Json>, rest: string, depth: nat)
    requires items != [] && forall i :: 0 <= i < |items| ==> Good(fits, items[i], depth)
    ensures ReadItems(fits, PrintItems(items) + rest, depth) == Some((items, rest))
    decreases items, 1
  {
    var tail := ItemsTail(items, rest);
    ItemsSplit(items, rest);
    ValueRoundTrip(fits, items[0], tail, depth);
    SplitFirst([], items);
    if |items| > 1 {
      ItemsRoundTrip(fits, items[1..], rest, depth);
    }
  }

  /** What follows the first item. */
  function ItemsTail(items: seq<Json>, rest: string): string
    requires items != []
  {
    if |items| == 1 then "]" + rest else "," + (PrintItems(items[1..]) + rest)
  }

  lemma ItemsSplit(items: seq<Json>, rest: string)
    requires items != []
    ensures PrintItems(items) + rest == Print(items[0]) + ItemsTail(items, rest)
    ensures ItemsTail(items, rest)[1..] == if |items| == 1 then rest else PrintItems(items[1..]) + rest
  {
    var p := Print(items[0]);
    if |items| == 1 {
      AppendAssoc(p, "]", rest);
      DropFirst("]", rest);
    } else {
      var q := PrintItems(items[1..]);
      AppendAssoc(p, "," + q, rest);
      AppendAssoc(",", q, rest);
      DropFirst(",", q + rest);
    }
  }

  lemma DropFirst(c: string, r: string)
    requires |c| == 1
    ensures (c + r)[1..] == r
  {
  }

  /** What follows the first member. */
  function MembersTail(fields: seq<(string, Json)>, rest: string): string
    requires fields != []
  {
    if |fields| == 1 then "}" + rest else "," + (PrintMembers(fields[1..]) + rest)
  }

  lemma MembersSplit(fields: seq<(string, Json)>, rest: string)
    requires fields != []
    ensures PrintMembers(fields) + rest ==
            WriteString(fields[0].0) + (":" + (Print(fields[0].1) + MembersTail(fields, rest)))
    ensures MembersTail(fields, rest)[1..] == if |fields| == 1 then rest else PrintMembers(fields[1..]) + rest
  {
    var k, p := WriteString(fields[0].0), Print(fields[0].1);
    if |fields| == 1 {
      Reassociate(k, ":", p, "}", rest);
      DropFirst("}", rest);
    } else {
      var q := PrintMembers(fields[1..]);
      Reassociate(k, ":", p, "," + q, rest);
      AppendAssoc(",", q, rest);
      DropFirst(",", q + rest);
    }
  }

  lemma Reassociate(a: string, b: string, c: string, d: string, e: string)
    ensures a + b + c + d + e == a + (b + (c + (d + e)))
  {
    AppendAssoc(a + b + c, d, e);
    AppendAssoc(a + b, c, d + e);
    AppendAssoc(a, b, c + (d + e));
  }

  lemma MemberText(fits: string -> bool, k: string, v: Json, tail: string, depth: nat, before: seq<(string, Json)>)
    requires tail != "" && (tail[0] == ',' || tail[0] == '}')
    requires ReadValue(fits, Print(v) + tail, depth) == Some((v, tail))
    ensures ReadMembers(fits, WriteString(k) + (":" + (Print(v) + tail)), depth, before) ==
            if tail[0] == '}' then Some((Put(before, k, v), tail[1..]))
            else ReadMembers(fits, tail[1..], depth, Put(before, k, v))
  {
    var afterKey := ":" + (Print(v) + tail);
    QuotedRoundTrip(k, afterKey);
    assert afterKey[1..] == Print(v) + tail;
  }

  lemma {:induction false} MembersRoundTrip(fits: string -> bool, fields: seq<(string, Json)>, rest: string, depth: nat, before: seq<(string, Json)>)
    requires fields != [] && Sorted(before + fields)
    requires forall i :: 0 <= i < |fields| ==> Good(fits, fields[i].1, depth)
    ensures ReadMembers(fits, PrintMembers(fields) + rest, depth, before) == Some((before + fields, rest))
    decreases fields, 1
  {
    var (k, v) := fields[0];
    assert v < fields[0];
    var tail := MembersTail(fields, rest);
    MembersSplit(fields, rest);
    ValueRoundTrip(fits, v, tail, depth);
    MemberText(fits, k, v, tail, depth, before);
    PutAppends(before, fields, k, v);
    SplitFirst(before, fields);
    if |fields| > 1 {
      MembersRoundTrip(fits, fields[1..], rest, depth, before + [(k, v)]);
    }
  }

  lemma SplitFirst<T>(before: seq<T>, s: seq<T>)
    requires s != []
    ensures before + [s[0]] + s[1..] == before + s
    ensures |s| == 1 ==> before + [s[0]] == before + s
    ensures [s[0]] + s[1..] == s && (|s| == 1 ==> [s[0]] == s)
  {
  }

  lemma PutAppends(before: seq<(string, Json)>, fields: seq<(string, Json)>, k: string, v: Json)
    requires fields != [] && fields[0] == (k, v) && Sorted(before + fields)
    ensures Put(before, k, v) == before + [(k, v)]
  {
    if before != [] {
      var n := |before| - 1;
      assert (before + fields)[n] == before[n] && (before + fields)[n + 1] == (k, v);
      LessTotal(before[n].0, k);
    }
  }

  /** Every well-formed value survives writing and reading. */
  lemma ParseInvertsPrint(fits: string -> bool, v: Json)
    requires Good(fits, v, MAX_DEPTH)
    ensures Parse(fits, Print(v)) == Some(v)
  {
    ValueRoundTrip(fits, v, "", MAX_DEPTH);
    assert Print(v) + "" == Print(v);
  }

  // ------------------------------------------------- what reading produces

  /** The size of a value: strings count their characters. */
  function Weight(v: Json): (w: nat)
    ensures w >= 1
    decreases v, 0
  {
    match v
    case Str(s) => |s| + 1
    case Arr(items) => 1 + ItemsWeight(items)
    case Obj(fields) => 1 + FieldsWeight(fields)
    case _ => 1
  }

  function ItemsWeight(items: seq<Json>): nat
    decreases items, 1
  {
    if items == [] then 0 else Weight(items[0]) + ItemsWeight(items[1..])
  }

  function FieldsWeight(fields: seq<(string, Json)>): nat
    decreases fields, 1
  {
    if fields == [] then 0
    else
      var last := fields[|fields| - 1];
      assert last.1 < last;
      FieldsWeight(fields[..|fields| - 1]) + Weight(last.1)
  }

  lemma {:induction false} PutWeight(fields: seq<(string, Json)>, k: string, v: Json)
    ensures FieldsWeight(Put(fields, k, v)) <= FieldsWeight(fields) + Weight(v)
  {
    if fields == [] {
      assert Put(fields, k, v)[..0] == [];
    } else {
      var n := |fields| - 1;
      var last := fields[n];
      if last.0 == k {
        assert (fields[..n] + [(k, v)])[..n] == fields[..n];
      } else if Less(last.0, k) {
        assert (fields + [(k, v)])[..n + 1] == fields;
      } else {
        var p := Put(fields[..n], k, v);
        PutWeight(fields[..n], k, v);
        assert (p + [last])[..|p|] == p;
      }
    }
  }

  /** Putting a member keeps the key order; the keys are the old ones and the new one. */
  lemma {:induction false} PutSorted(fields: seq<(string, Json)>, k: string, v: Json)
    requires Sorted(fields)
    ensures Sorted(Put(fields, k, v))
    ensures forall f :: f in Put(fields, k, v) ==> f == (k, v) || f in fields
    ensures forall f :: f in fields && f.0 != k ==> f in Put(fields, k, v)
    ensures (k, v) in Put(fields, k, v)
  {
    if fields != [] {
      var n := |fields| - 1;
      var last := fields[n];
      LessTotal(last.0, k);
      PutSorted(fields[..n], k, v);
      if last.0 != k && Less(last.0, k) {
        forall i | 0 <= i < n ensures Less(fields[i].0, k) {
          LessTotal(last.0, fields[i].0);
          LessTransitive(fields[i].0, last.0, k);
        }
      }
    }
  }

  /** A text that is read weighs no less than its value. */
  lemma {:induction false} ValueWeight(fits: string -> bool, s: string, depth: nat)
    ensures ReadValue(fits, s, depth).Some? ==>
              Weight(ReadValue(fits, s, depth).value.0) + |ReadValue(fits, s, depth).value.1| <= |s|
    decreases |s|, 1
  {
    var t := SkipSpace(s);
    if t != "" && depth > 0 {
      var u := SkipSpace(t[1..]);
      if t[0] == '[' && u != "" && u[0] != ']' {
        ItemsTextWeight(fits, u, depth - 1);
      }
      if t[0] == '{' && u != "" && u[0] != '}' {
        MembersWeight(fits, u, depth - 1, []);
      }
    }
  }

  lemma {:induction false} ItemsTextWeight(fits: string -> bool, s: string, depth: nat)
    ensures ReadItems(fits, s, depth).Some? ==>
              ItemsWeight(ReadItems(fits, s, depth).value.0) + |ReadItems(fits, s, depth).value.1| <= |s|
    decreases |s|, 2
  {
    ValueWeight(fits, s, depth);
    match ReadValue(fits, s, depth)
    case None =>
    case Some((v, rest)) =>
      var t := SkipSpace(rest);
      if t != "" {
        ItemsTextWeight(fits, t[1..], depth);
        if t[0] == ',' && ReadItems(fits, t[1..], depth).Some? {
          var vs := ReadItems(fits, t[1..], depth).value.0;
          assert ([v] + vs)[1..] == vs;
        }
      }
  }

  lemma {:induction false} MembersWeight(fits: string -> bool, s: string, depth: nat, before: seq<(string, Json)>)
    ensures ReadMembers(fits, s, depth, before).Some? ==>
              FieldsWeight(ReadMembers(fits, s, depth, before).value.0) + |ReadMembers(fits, s, depth, before).value.1|
              <= FieldsWeight(before) + |s|
    decreases |s|, 2
  {
    var t := SkipSpace(s);
    if t != "" && t[0] == '"' && ReadString(t[1..]).Some? {
      var (k, afterKey) := ReadString(t[1..]).value;
      var u := SkipSpace(afterKey);
      if u != "" && u[0] == ':' {
        ValueWeight(fits, u[1..], depth);
        match ReadValue(fits, u[1..], depth)
        case None =>
        case Some((v, rest)) =>
          PutWeight(before, k, v);
          var w := SkipSpace(rest);
          if w != "" {
            MembersWeight(fits, w[1..], depth, Put(before, k, v));
          }
      }
    }
  }

  /** What is read is well formed and respects the depth limit. */
  lemma {:induction false} ValueGood(fits: string -> bool, s: string, depth: nat)
    ensures ReadValue(fits, s, depth).Some? ==> Good(fits, ReadValue(fits, s, depth).value.0, depth)
    decreases |s|, 1
  {
    var t := SkipSpace(s);
    if t != "" && t[0] == '[' {
      ArrayGood(fits, s, depth);
    } else if t != "" && t[0] == '{' {
      ObjectGood(fits, s, depth);
    }
  }

  lemma {:induction false} ArrayGood(fits: string -> bool, s: string, depth: nat)
    requires SkipSpace(s) != "" && SkipSpace(s)[0] == '['
    ensures ReadValue(fits, s, depth).Some? ==> Good(fits, ReadValue(fits, s, depth).value.0, depth)
    decreases |s|, 0
  {
    var u := SkipSpace(SkipSpace(s)[1..]);
    if depth > 0 && u != "" && u[0] != ']' {
      ItemsGood(fits, u, depth - 1);
    }
  }

  lemma {:induction false} ObjectGood(fits: string -> bool, s: string, depth: nat)
    requires SkipSpace(s) != "" && SkipSpace(s)[0] == '{'
    ensures ReadValue(fits, s, depth).Some? ==> Good(fits, ReadValue(fits, s, depth).value.0, depth)
    decreases |s|, 0
  {
    var u := SkipSpace(SkipSpace(s)[1..]);
    if depth > 0 && u != "" && u[0] != '}' {
      MembersGood(fits, u, depth - 1, []);
    }
  }

  lemma {:induction false} ItemsGood(fits: string -> bool, s: string, depth: nat)
    ensures ReadItems(fits, s, depth).Some? ==>
              forall i :: 0 <= i < |ReadItems(fits, s, depth).value.0| ==> Good(fits, ReadItems(fits, s, depth).value.0[i], depth)
    decreases |s|, 2
  {
    ValueGood(fits, s, depth);
    match ReadValue(fits, s, depth)
    case None =>
    case Some((v, rest)) =>
      var t := SkipSpace(rest);
      if t != "" {
        ItemsGood(fits, t[1..], depth);
      }
  }

  ghost predicate GoodFields(fits: string -> bool, fields: seq<(string, Json)>, depth: nat) {
    Sorted(fields) && forall f :: f in fields ==> Good(fits, f.1, depth)
  }

  lemma {:induction false} MembersGood(fits: string -> bool, s: string, depth: nat, before: seq<(string, Json)>)
    requires GoodFields(fits, before, depth)
    ensures ReadMembers(fits, s, depth, before).Some? ==> GoodFields(fits, ReadMembers(fits, s, depth, before).value.0, depth)
    decreases |s|, 2
  {
    var t := SkipSpace(s);
    if t != "" && t[0] == '"' && ReadString(t[1..]).Some? {
      var (k, afterKey) := ReadString(t[1..]).value;
      var u := SkipSpace(afterKey);
      if u != "" && u[0] == ':' {
        ValueGood(fits, u[1..], depth);
        match ReadValue(fits, u[1..], depth)
        case None =>
        case Some((v, rest)) =>
          PutSorted(before, k, v);
          var w := SkipSpace(rest);
          if w != "" {
            MembersGood(fits, w[1..], depth, Put(before, k, v));
          }
      }
    }
  }

  lemma ParsedIsGood(fits: string -> bool, s: string)
    ensures Parse(fits, s).Some? ==> Good(fits, Parse(fits, s).value, MAX_DEPTH) && Weight(Parse(fits, s).value) <= |s|
  {
    ValueGood(fits, s, MAX_DEPTH);
    ValueWeight(fits, s, MAX_DEPTH);
  }
}
