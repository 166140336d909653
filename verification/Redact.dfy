/** Redaction of JSON payloads, through JSON nested in strings to any depth.
    `scrub` stands for the replacement of inline secrets by a regular expression. */
module Redact {

  import opened Prelude
  import opened Json
  import opened JsonText
  import opened JsonRoundTrip
  import opened JsonNumbers

  const PLACEHOLDER: string := ['«'] + "redacted" + ['»']

  const SECRET_WORDS: seq<string> := ["token", "key", "secret", "password", "passwd", "auth", "credential"]

  /** Case folding as the key pattern sees it: two characters outside ASCII fold
      onto letters of its words. */
  function Fold(c: char): char {
    if 'A' <= c <= 'Z' then (c as nat - 'A' as nat + 'a' as nat) as char
    else if c as nat == 0x212A then 'k'
    else if c as nat == 0x17F then 's'
    else c
  }

  predicate Occurs(word: string, s: string, at: nat) {
    at + |word| <= |s| && forall i :: 0 <= i < |word| ==> Fold(s[at + i]) == word[i]
  }

  /** The key looks like it holds a secret. */
  predicate SecretKey(k: string) {
    exists w, at :: w in SECRET_WORDS && 0 <= at <= |k| && Occurs(w, k, at)
  }

  /** The value of a string that is taken for encoded JSON. */
  function Nested(s: string): (r: Option<Json>)
    ensures r.Some? ==> Good(Float64, r.value, MAX_DEPTH) && Weight(r.value) <= |s|
  {
    ParsedIsGood(Float64, s);
    if |s| > 1 && (s[0] == '{' || s[0] == '[') then Parse(Float64, s) else None
  }

  function Walk(scrub: string -> string, v: Json): Json
    decreases Weight(v), 1
  {
    match v
    case Obj(fields) => Obj(WalkFields(scrub, fields))
    case Arr(items) => Arr(WalkItems(scrub, items))
    case Str(s) => Str(RedactString(scrub, s))
    case _ => v
  }

  function WalkItems(scrub: string -> string, items: seq<Json>): (r: seq<Json>)
    ensures |r| == |items|
    decreases ItemsWeight(items), 2
  {
    if items == [] then [] else [Walk(scrub, items[0])] + WalkItems(scrub, items[1..])
  }

  function WalkFields(scrub: string -> string, fields: seq<(string, Json)>): (r: seq<(string, Json)>)
    ensures |r| == |fields| && forall i :: 0 <= i < |r| ==> r[i].0 == fields[i].0
    decreases FieldsWeight(fields), 2
  {
    if fields == [] then []
    else
      var (k, v) := fields[|fields| - 1];
      WalkFields(scrub, fields[..|fields| - 1]) + [(k, if SecretKey(k) then Str(PLACEHOLDER) else Walk(scrub, v))]
  }

  function RedactString(scrub: string -> string, s: string): string
    decreases |s| + 1, 0
  {
    match Nested(s)
    case Some(inner) => Print(Walk(scrub, inner))
    case None => scrub(s)
  }

  /** The redacted text of a payload; one that is not JSON counts as a string. */
  function Redacted(scrub: string -> string, raw: string): string {
    Print(Walk(scrub, PayloadOf(raw)))
  }

  function PayloadOf(raw: string): (v: Json)
    ensures Good(Float64, v, MAX_DEPTH)
  {
    ParsedIsGood(Float64, raw);
    match Parse(Float64, raw)
    case Some(v) => v
    case None => Str(raw)
  }

  // ------------------------------------------------------------------ secret keys

  /** The small letter `l`, in either case; two characters outside ASCII count as the
      letters they are variants of. */
  predicate Cased(c: char, l: char) {
    || c == l
    || ('a' <= l <= 'z' && c as int + 32 == l as int)
    || (l == 'k' && c as int == 0x212A)
    || (l == 's' && c as int == 0x17F)
  }

  /** `word` stands at position `at`, in any mixture of cases. */
  predicate Spelled(word: string, s: string, at: nat) {
    at + |word| <= |s| && forall i :: 0 <= i < |word| ==> Cased(s[at + i], word[i])
  }

  /** A key with one of the seven words somewhere in it, in any mixture of cases. */
  predicate LooksSecret(k: string) {
    exists w, at ::
      w in {"token", "key", "secret", "password", "passwd", "auth", "credential"} && 0 <= at <= |k| && Spelled(w, k, at)
  }

  lemma FoldIff(c: char, l: char)
    requires 'a' <= l <= 'z'
    ensures Fold(c) == l <==> Cased(c, l)
  {
  }

  lemma OccursIff(word: string, s: string, at: nat)
    requires forall i :: 0 <= i < |word| ==> 'a' <= word[i] <= 'z'
    ensures Occurs(word, s, at) <==> Spelled(word, s, at)
  {
    forall i | at + |word| <= |s| && 0 <= i < |word| ensures Fold(s[at + i]) == word[i] <==> Cased(s[at + i], word[i]) {
      FoldIff(s[at + i], word[i]);
    }
  }

  lemma WordsAreSmall(w: string)
    requires w in {"token", "key", "secret", "password", "passwd", "auth", "credential"}
    ensures forall i :: 0 <= i < |w| ==> 'a' <= w[i] <= 'z'
  {
  }

  lemma WordsAre(w: string)
    ensures w in SECRET_WORDS <==> w in {"token", "key", "secret", "password", "passwd", "auth", "credential"}
  {
    assert SECRET_WORDS[0] == "token" && SECRET_WORDS[1] == "key" && SECRET_WORDS[2] == "secret";
    assert SECRET_WORDS[3] == "password" && SECRET_WORDS[4] == "passwd" && SECRET_WORDS[5] == "auth";
    assert SECRET_WORDS[6] == "credential";
  }

  /** The key pattern takes a key for secret exactly when one of the seven words is in it. */
  lemma SecretKeyIff(k: string)
    ensures SecretKey(k) <==> LooksSecret(k)
  {
    if w, at :| w in SECRET_WORDS && 0 <= at <= |k| && Occurs(w, k, at) {
      WordsAre(w);
      WordsAreSmall(w);
      OccursIff(w, k, at);
    }
    if w, at :|
      w in {"token", "key", "secret", "password", "passwd", "auth", "credential"} && 0 <= at <= |k| && Spelled(w, k, at) {
      WordsAre(w);
      WordsAreSmall(w);
      OccursIff(w, k, at);
    }
  }

  // ------------------------------------------------------------------ shape

  /** Same keys and lengths throughout, down to where a secret key was blanked,
      and into JSON held in strings. */
  predicate SameShape(v: Json, w: Json)
    decreases Weight(v), 1
  {
    match v
    case Obj(fields) => w.Obj? && SameFields(fields, w.fields)
    case Arr(items) => w.Arr? && SameItems(items, w.items)
    case Str(s) => w.Str? && (Nested(s).Some? ==> Nested(w.s).Some? && SameShape(Nested(s).value, Nested(w.s).value))
    case _ => w == v
  }

  predicate SameItems(a: seq<Json>, b: seq<Json>)
    decreases ItemsWeight(a), 2
  {
    |a| == |b| && (a != [] ==> SameShape(a[0], b[0]) && SameItems(a[1..], b[1..]))
  }

  predicate SameFields(a: seq<(string, Json)>, b: seq<(string, Json)>)
    decreases FieldsWeight(a), 2
  {
    && |a| == |b|
    && (a != [] ==>
          var n := |a| - 1;
          && a[n].0 == b[n].0
          && (LooksSecret(a[n].0) || SameShape(a[n].1, b[n].1))
          && SameFields(a[..n], b[..n]))
  }

  // ------------------------------------------------------------ cleanliness

  /** At every level, nested strings included, a secret-looking key holds only
      the placeholder. */
  predicate Clean(v: Json)
    decreases Weight(v), 1
  {
    match v
    case Obj(fields) => CleanFields(fields)
    case Arr(items) => CleanItems(items)
    case Str(s) => CleanString(s)
    case _ => true
  }

  predicate CleanItems(items: seq<Json>)
    decreases ItemsWeight(items), 2
  {
    items != [] ==> Clean(items[0]) && CleanItems(items[1..])
  }

  predicate CleanFields(fields: seq<(string, Json)>)
    decreases FieldsWeight(fields), 2
  {
    fields != [] ==>
      var (k, v) := fields[|fields| - 1];
      && (if LooksSecret(k) then v == Str("\U{AB}redacted\U{BB}") else Clean(v))
      && CleanFields(fields[..|fields| - 1])
  }

  predicate CleanString(s: string)
    decreases |s| + 1, 0
  {
    match Nested(s)
    case Some(inner) => Clean(inner)
    case None => true
  }

  /** Some string that is scrubbed, at whatever level, satisfies `bad`. */
  predicate SomeLeaf(bad: string -> bool, v: Json)
    decreases Weight(v), 1
  {
    match v
    case Obj(fields) => SomeFieldLeaf(bad, fields)
    case Arr(items) => SomeItemLeaf(bad, items)
    case Str(s) => SomeStringLeaf(bad, s)
    case _ => false
  }

  predicate SomeItemLeaf(bad: string -> bool, items: seq<Json>)
    decreases ItemsWeight(items), 2
  {
    items != [] && (SomeLeaf(bad, items[0]) || SomeItemLeaf(bad, items[1..]))
  }

  predicate SomeFieldLeaf(bad: string -> bool, fields: seq<(string, Json)>)
    decreases FieldsWeight(fields), 2
  {
    fields != [] &&
      var (k, v) := fields[|fields| - 1];
      (!LooksSecret(k) && SomeLeaf(bad, v)) || SomeFieldLeaf(bad, fields[..|fields| - 1])
  }

  predicate SomeStringLeaf(bad: string -> bool, s: string)
    decreases |s| + 1, 0
  {
    match Nested(s)
    case Some(inner) => SomeLeaf(bad, inner)
    case None => bad(s)
  }

  /** Scrubbing turns the string into JSON text that still shows a secret. */
  function Unmasks(scrub: string -> string): string -> bool {
    s => !CleanString(scrub(s))
  }

  /** A second pass would change the scrubbed string. */
  function Unsteady(scrub: string -> string): string -> bool {
    s => RedactString(scrub, scrub(s)) != scrub(s)
  }

  // ------------------------------------------------------------------ proofs

  lemma {:induction false} WalkGood(scrub: string -> string, v: Json, depth: nat)
    requires Good(Float64, v, depth)
    ensures Good(Float64, Walk(scrub, v), depth)
    decreases Weight(v), 1
  {
    match v
    case Obj(fields) => WalkFieldsGood(scrub, fields, depth - 1);
    case Arr(items) => WalkItemsGood(scrub, items, depth - 1);
    case _ =>
  }

  lemma {:induction false} WalkItemsGood(scrub: string -> string, items: seq<Json>, depth: nat)
    requires forall i :: 0 <= i < |items| ==> Good(Float64, items[i], depth)
    ensures forall i :: 0 <= i < |items| ==> Good(Float64, WalkItems(scrub, items)[i], depth)
    decreases ItemsWeight(items), 2
  {
    if items != [] {
      WalkGood(scrub, items[0], depth);
      WalkItemsGood(scrub, items[1..], depth);
    }
  }

  lemma {:induction false} WalkFieldsGood(scrub: string -> string, fields: seq<(string, Json)>, depth: nat)
    requires forall i :: 0 <= i < |fields| ==> Good(Float64, fields[i].1, depth)
    ensures forall i :: 0 <= i < |fields| ==> Good(Float64, WalkFields(scrub, fields)[i].1, depth)
    decreases FieldsWeight(fields), 2
  {
    if fields != [] {
      var n := |fields| - 1;
      WalkGood(scrub, fields[n].1, depth);
      WalkFieldsGood(scrub, fields[..n], depth);
    }
  }

  lemma NestedIsContainer(s: string)
    requires Nested(s).Some?
    ensures Nested(s).value.Obj? || Nested(s).value.Arr?
  {
    var t := SkipSpace(s);
  }

  /** A redacted nested value is found again in the string it is written to. */
  lemma NestedRoundTrip(w: Json)
    requires Good(Float64, w, MAX_DEPTH) && (w.Obj? || w.Arr?)
    ensures Nested(Print(w)) == Some(w)
  {
    ParseInvertsPrint(Float64, w);
    var p := Print(w);
    match w
    case Arr(items) => if items != [] { assert p[0] == '['; assert |PrintItems(items)| > 0; }
    case Obj(fields) => if fields != [] { assert p[0] == '{'; }
  }

  /** What redacting a nested string leaves there. */
  lemma RedactedNested(scrub: string -> string, s: string)
    requires Nested(s).Some?
    ensures Nested(RedactString(scrub, s)) == Some(Walk(scrub, Nested(s).value))
  {
    NestedIsContainer(s);
    WalkGood(scrub, Nested(s).value, MAX_DEPTH);
    NestedRoundTrip(Walk(scrub, Nested(s).value));
  }

  /** Redaction keeps key sets and array lengths at every level. */
  lemma {:induction false} WalkKeepsShape(scrub: string -> string, v: Json)
    ensures SameShape(v, Walk(scrub, v))
    decreases Weight(v), 1
  {
    match v
    case Obj(fields) => WalkFieldsShape(scrub, fields);
    case Arr(items) => WalkItemsShape(scrub, items);
    case Str(s) =>
      if Nested(s).Some? {
        RedactedNested(scrub, s);
        WalkKeepsShape(scrub, Nested(s).value);
      }
    case _ =>
  }

  lemma {:induction false} WalkItemsShape(scrub: string -> string, items: seq<Json>)
    ensures SameItems(items, WalkItems(scrub, items))
    decreases ItemsWeight(items), 2
  {
    if items != [] {
      WalkKeepsShape(scrub, items[0]);
      WalkItemsShape(scrub, items[1..]);
    }
  }

  lemma {:induction false} WalkFieldsShape(scrub: string -> string, fields: seq<(string, Json)>)
    ensures SameFields(fields, WalkFields(scrub, fields))
    decreases FieldsWeight(fields), 2
  {
    if fields != [] {
      var n := |fields| - 1;
      SecretKeyIff(fields[n].0);
      WalkKeepsShape(scrub, fields[n].1);
      WalkFieldsShape(scrub, fields[..n]);
      assert WalkFields(scrub, fields)[..n] == WalkFields(scrub, fields[..n]);
    }
  }

  /** Redaction is deep exactly when scrubbing unmasks no string: then, and only
      then, every secret-looking key at every parsed level holds the placeholder. */
  lemma {:induction false} WalkCleanIff(scrub: string -> string, v: Json)
    ensures Clean(Walk(scrub, v)) <==> !SomeLeaf(Unmasks(scrub), v)
    decreases Weight(v), 1
  {
    match v
    case Obj(fields) => WalkFieldsCleanIff(scrub, fields);
    case Arr(items) => WalkItemsCleanIff(scrub, items);
    case Str(s) =>
      if Nested(s).Some? {
        RedactedNested(scrub, s);
        WalkCleanIff(scrub, Nested(s).value);
      }
    case _ =>
  }

  lemma {:induction false} WalkItemsCleanIff(scrub: string -> string, items: seq<Json>)
    ensures CleanItems(WalkItems(scrub, items)) <==> !SomeItemLeaf(Unmasks(scrub), items)
    decreases ItemsWeight(items), 2
  {
    if items != [] {
      WalkCleanIff(scrub, items[0]);
      WalkItemsCleanIff(scrub, items[1..]);
      assert WalkItems(scrub, items)[1..] == WalkItems(scrub, items[1..]);
    }
  }

  lemma {:induction false} WalkFieldsCleanIff(scrub: string -> string, fields: seq<(string, Json)>)
    ensures CleanFields(WalkFields(scrub, fields)) <==> !SomeFieldLeaf(Unmasks(scrub), fields)
    decreases FieldsWeight(fields), 2
  {
    if fields != [] {
      var n := |fields| - 1;
      SecretKeyIff(fields[n].0);
      WalkCleanIff(scrub, fields[n].1);
      WalkFieldsCleanIff(scrub, fields[..n]);
      assert WalkFields(scrub, fields)[..n] == WalkFields(scrub, fields[..n]);
    }
  }

  /** A second pass changes nothing exactly when no scrubbed string would change. */
  lemma {:induction false} WalkIdempotentIff(scrub: string -> string, v: Json)
    ensures Walk(scrub, Walk(scrub, v)) == Walk(scrub, v) <==> !SomeLeaf(Unsteady(scrub), v)
    decreases Weight(v), 1
  {
    match v
    case Obj(fields) => WalkFieldsIdempotentIff(scrub, fields);
    case Arr(items) => WalkItemsIdempotentIff(scrub, items);
    case Str(s) =>
      if Nested(s).Some? {
        WalkIdempotentIff(scrub, Nested(s).value);
        NestedIdempotentIff(scrub, s);
      }
    case _ =>
  }

  /** A second pass over a redacted nested text is one over the tree it holds. */
  lemma NestedIdempotentIff(scrub: string -> string, s: string)
    requires Nested(s).Some?
    ensures var w := Walk(scrub, Nested(s).value);
            RedactString(scrub, RedactString(scrub, s)) == RedactString(scrub, s) <==> Walk(scrub, w) == w
  {
    var w := Walk(scrub, Nested(s).value);
    RedactedNested(scrub, s);
    WalkGood(scrub, Nested(s).value, MAX_DEPTH);
    WalkGood(scrub, w, MAX_DEPTH);
    ParseInvertsPrint(Float64, w);
    ParseInvertsPrint(Float64, Walk(scrub, w));
  }

  lemma {:induction false} WalkItemsIdempotentIff(scrub: string -> string, items: seq<Json>)
    ensures WalkItems(scrub, WalkItems(scrub, items)) == WalkItems(scrub, items) <==> !SomeItemLeaf(Unsteady(scrub), items)
    decreases ItemsWeight(items), 2
  {
    if items != [] {
      var r := WalkItems(scrub, items);
      WalkIdempotentIff(scrub, items[0]);
      WalkItemsIdempotentIff(scrub, items[1..]);
      assert r[1..] == WalkItems(scrub, items[1..]);
      assert WalkItems(scrub, r)[1..] == WalkItems(scrub, r[1..]);
      SplitEqual(WalkItems(scrub, r), r);
    }
  }

  lemma SplitEqual<T>(a: seq<T>, b: seq<T>)
    requires |a| == |b| > 0
    ensures a == b <==> a[0] == b[0] && a[1..] == b[1..]
    ensures a == b <==> a[|a| - 1] == b[|b| - 1] && a[..|a| - 1] == b[..|b| - 1]
  {
    if a[0] == b[0] && a[1..] == b[1..] {
      assert a == [a[0]] + a[1..] && b == [b[0]] + b[1..];
    }
    if a[|a| - 1] == b[|b| - 1] && a[..|a| - 1] == b[..|b| - 1] {
      assert a == a[..|a| - 1] + [a[|a| - 1]] && b == b[..|b| - 1] + [b[|b| - 1]];
    }
  }

  lemma {:induction false} WalkFieldsIdempotentIff(scrub: string -> string, fields: seq<(string, Json)>)
    ensures WalkFields(scrub, WalkFields(scrub, fields)) == WalkFields(scrub, fields)
       <==> !SomeFieldLeaf(Unsteady(scrub), fields)
    decreases FieldsWeight(fields), 2
  {
    if fields != [] {
      var n := |fields| - 1;
      SecretKeyIff(fields[n].0);
      var r := WalkFields(scrub, fields);
      WalkIdempotentIff(scrub, fields[n].1);
      WalkFieldsIdempotentIff(scrub, fields[..n]);
      assert r[..n] == WalkFields(scrub, fields[..n]);
      assert WalkFields(scrub, r)[..n] == WalkFields(scrub, r[..n]);
      SplitEqual(WalkFields(scrub, r), r);
    }
  }

  /** The result is always valid JSON again, with the payload's shape. */
  lemma RedactedIsJson(scrub: string -> string, raw: string)
    ensures Parse(Float64, Redacted(scrub, raw)) == Some(Walk(scrub, PayloadOf(raw)))
    ensures SameShape(PayloadOf(raw), Walk(scrub, PayloadOf(raw)))
    ensures Clean(Walk(scrub, PayloadOf(raw))) <==> !SomeLeaf(Unmasks(scrub), PayloadOf(raw))
  {
    WalkGood(scrub, PayloadOf(raw), MAX_DEPTH);
    ParseInvertsPrint(Float64, Walk(scrub, PayloadOf(raw)));
    WalkKeepsShape(scrub, PayloadOf(raw));
    WalkCleanIff(scrub, PayloadOf(raw));
  }

  // ------------------------------------------------------- numbers too large

  /** JSON in a string is looked into exactly when it is enclosed in braces or
      brackets, its grammar is right, and every number in it fits. */
  lemma NestedIff(s: string)
    ensures Nested(s) == if |s| > 1 && (s[0] == '{' || s[0] == '[') && AllFit(Float64, s) then Parse(AnyNumber, s) else None
  {
    DecodedIff(Float64, s);
  }

  lemma UndecodedIsString(scrub: string -> string, raw: string)
    requires Parse(Float64, raw).None?
    ensures Walk(scrub, PayloadOf(raw)) == Str(scrub(raw))
  {
    assert Nested(raw).None?;
  }

  /** A payload with a number out of range is not decoded, whatever its grammar: it
      is scrubbed as one string. */
  lemma UndecodedIsScrubbed(scrub: string -> string, raw: string)
    requires !AllFit(Float64, raw)
    ensures Redacted(scrub, raw) == Print(Str(scrub(raw)))
    ensures Parse(Float64, Redacted(scrub, raw)) == Some(Str(scrub(raw)))
  {
    DecodedIff(Float64, raw);
    UndecodedIsString(scrub, raw);
    RedactedIsJson(scrub, raw);
  }

  lemma {:induction false} WalkFieldsBlank(scrub: string -> string, fields: seq<(string, Json)>, i: nat)
    requires i < |fields|
    ensures WalkFields(scrub, fields)[i] ==
            (fields[i].0, if LooksSecret(fields[i].0) then Str("\U{AB}redacted\U{BB}") else Walk(scrub, fields[i].1))
    decreases |fields|
  {
    var n := |fields| - 1;
    SecretKeyIff(fields[n].0);
    if i < n {
      WalkFieldsBlank(scrub, fields[..n], i);
      assert WalkFields(scrub, fields)[i] == WalkFields(scrub, fields[..n])[i] && fields[..n][i] == fields[i];
    } else {
      assert PLACEHOLDER == "\U{AB}redacted\U{BB}";
    }
  }

  /** The text is an object with this member. */
  predicate StoresMember(text: string, k: string, v: Json) {
    match Parse(Float64, text)
    case Some(Obj(fields)) => (k, v) in fields
    case _ => false
  }

  /** A payload that is an object with a secret-looking key is stored as an object
      with that key blanked exactly when every number in the payload fits. */
  lemma SecretBlankedIff(scrub: string -> string, raw: string, i: nat)
    requires Parse(AnyNumber, raw).Some? && Parse(AnyNumber, raw).value.Obj?
    requires i < |Parse(AnyNumber, raw).value.fields| && LooksSecret(Parse(AnyNumber, raw).value.fields[i].0)
    ensures StoresMember(Redacted(scrub, raw), Parse(AnyNumber, raw).value.fields[i].0, Str("\U{AB}redacted\U{BB}"))
       <==> AllFit(Float64, raw)
  {
    DecodedIff(Float64, raw);
    if AllFit(Float64, raw) {
      RedactedIsJson(scrub, raw);
      WalkFieldsBlank(scrub, PayloadOf(raw).fields, i);
    } else {
      UndecodedIsScrubbed(scrub, raw);
    }
  }

  /** A member under any other key is stored with its value redacted in turn: numbers,
      truth values and null as they are, text that is not JSON as the scrub leaves it. */
  lemma OtherMembersKept(scrub: string -> string, raw: string, i: nat)
    requires Parse(AnyNumber, raw).Some? && Parse(AnyNumber, raw).value.Obj? && AllFit(Float64, raw)
    requires i < |Parse(AnyNumber, raw).value.fields| && !LooksSecret(Parse(AnyNumber, raw).value.fields[i].0)
    ensures var (k, v) := Parse(AnyNumber, raw).value.fields[i];
            && (v.Num? || v.Bool? || v.Null? ==> StoresMember(Redacted(scrub, raw), k, v))
            && (v.Str? && Nested(v.s).None? ==> StoresMember(Redacted(scrub, raw), k, Str(scrub(v.s))))
  {
    DecodedIff(Float64, raw);
    RedactedIsJson(scrub, raw);
    WalkFieldsBlank(scrub, PayloadOf(raw).fields, i);
  }

  /** An object of a number and a text member. */
  function Pair(k: string, token: string, l: string, s: string): Json {
    Obj([(k, Num(token)), (l, Str(s))])
  }

  lemma PairGoodIff(fits: string -> bool, k: string, token: string, l: string, s: string, depth: nat)
    requires Less(k, l) && depth > 0
    ensures Good(fits, Pair(k, token, l, s), depth) <==> Token(fits, token)
  {
    var fields := Pair(k, token, l, s).fields;
    assert fields[0].1 == Num(token) && fields[1].1 == Str(s);
  }

  /** The condition can fail: next to a number out of range no key is blanked. The
      payload is correct JSON and is stored as one scrubbed string. */
  lemma LargeNumberKeepsKey(scrub: string -> string, k: string, token: string, l: string, s: string)
    requires Token(AnyNumber, token) && !Float64(token) && Less(k, l)
    ensures var raw := Print(Pair(k, token, l, s));
            && Parse(AnyNumber, raw) == Some(Pair(k, token, l, s))
            && Redacted(scrub, raw) == Print(Str(scrub(raw)))
  {
    var v := Pair(k, token, l, s);
    var raw := Print(v);
    ParseInvertsPrint(AnyNumber, v);
    PairGoodIff(AnyNumber, k, token, l, s, MAX_DEPTH);
    PairGoodIff(Float64, k, token, l, s, MAX_DEPTH);
    assert !Token(Float64, token);
    ParsedIsGood(Float64, raw);
    DecodedIff(Float64, raw);
    UndecodedIsScrubbed(scrub, raw);
  }

  /** One such payload: a scrub that does not catch the password stores it. */
  lemma HugeNumberKeepsPassword(scrub: string -> string, raw: string)
    requires raw == "{\"n\":1e400,\"password\":\"hunter2\"}"
    ensures Parse(AnyNumber, raw) == Some(Pair("n", "1e400", "password", "hunter2"))
    ensures Redacted(scrub, raw) == Print(Str(scrub(raw)))
  {
    var k, token, l, s := "n", "1e400", "password", "hunter2";
    HugeNumberDoesNotFit();
    HugeToken();
    assert Less(k, l);
    LargeNumberKeepsKey(scrub, k, token, l, s);
    WordsArePlain();
    PlainPair(k, token, l, s);
    HugeText();
  }

  lemma WordsArePlain()
    ensures PlainChars("n") && PlainChars("password") && PlainChars("hunter2")
  {
  }

  lemma HugeText()
    ensures PairText("n", "1e400", "password", "hunter2") == "{\"n\":1e400,\"password\":\"hunter2\"}"
  {
    HugeMember();
    NumberMember();
    TwoMembers();
    OpenedText();
  }

  lemma TwoMembers()
    ensures "\"n\":1e400" + ",\"password\":\"hunter2\"}" == "\"n\":1e400,\"password\":\"hunter2\"}"
  {
  }

  lemma OpenedText()
    ensures "{" + "\"n\":1e400,\"password\":\"hunter2\"}" == "{\"n\":1e400,\"password\":\"hunter2\"}"
  {
  }

  lemma NumberMember()
    ensures Quoted("n") + ":" + "1e400" == "\"n\":1e400"
  {
    assert Quoted("n") == "\"n\"";
  }

  lemma HugeMember()
    ensures "," + (Quoted("password") + ":" + Quoted("hunter2") + "}") == ",\"password\":\"hunter2\"}"
  {
    QuotedWords();
    MemberWords();
  }

  lemma QuotedWords()
    ensures Quoted("hunter2") == "\"hunter2\"" && Quoted("password") == "\"password\""
  {
  }

  lemma MemberWords()
    ensures "\"password\"" + ":" + "\"hunter2\"" + "}" == "\"password\":\"hunter2\"}"
  {
  }

  lemma HugeToken()
    ensures Token(AnyNumber, "1e400")
  {
    var t := "1e400";
    DigitsAll(t, 2);
    assert Digits(t, 0) == 1;
    assert forall i :: 0 <= i < |t| ==> NumChar(t[i]);
  }

  predicate PlainChars(s: string) {
    forall i :: 0 <= i < |s| ==> 'a' <= s[i] <= 'z' || Digit(s[i])
  }

  function Quoted(s: string): string {
    "\"" + s + "\""
  }

  function PairText(k: string, token: string, l: string, s: string): string {
    "{" + (Quoted(k) + ":" + token + ("," + (Quoted(l) + ":" + Quoted(s) + "}")))
  }

  lemma PlainPair(k: string, token: string, l: string, s: string)
    requires PlainChars(k) && PlainChars(l) && PlainChars(s)
    ensures Print(Pair(k, token, l, s)) == PairText(k, token, l, s)
  {
    Plain(k);
    Plain(l);
    Plain(s);
    var last: seq<(string, Json)> := [(l, Str(s))];
    var fields := [(k, Num(token)), (l, Str(s))];
    assert fields[1..] == last;
    assert PrintMembers(last) == WriteString(l) + ":" + WriteString(s) + "}";
    assert PrintMembers(fields) == WriteString(k) + ":" + token + ("," + PrintMembers(last));
  }

  lemma {:induction false} Plain(s: string)
    requires PlainChars(s)
    ensures WriteChars(s) == s
  {
    if s != "" {
      Plain(s[1..]);
    }
  }

  // ------------------------------------------- what the scrub has to guarantee

  lemma {:induction false} NoLeaf(bad: string -> bool, v: Json)
    requires forall s :: Nested(s).None? ==> !bad(s)
    ensures !SomeLeaf(bad, v)
    decreases Weight(v), 1
  {
    match v
    case Obj(fields) => NoFieldLeaf(bad, fields);
    case Arr(items) => NoItemLeaf(bad, items);
    case Str(s) =>
      if Nested(s).Some? {
        NoLeaf(bad, Nested(s).value);
      }
    case _ =>
  }

  lemma {:induction false} NoItemLeaf(bad: string -> bool, items: seq<Json>)
    requires forall s :: Nested(s).None? ==> !bad(s)
    ensures !SomeItemLeaf(bad, items)
    decreases ItemsWeight(items), 2
  {
    if items != [] {
      NoLeaf(bad, items[0]);
      NoItemLeaf(bad, items[1..]);
    }
  }

  lemma {:induction false} NoFieldLeaf(bad: string -> bool, fields: seq<(string, Json)>)
    requires forall s :: Nested(s).None? ==> !bad(s)
    ensures !SomeFieldLeaf(bad, fields)
    decreases FieldsWeight(fields), 2
  {
    if fields != [] {
      var n := |fields| - 1;
      NoLeaf(bad, fields[n].1);
      NoFieldLeaf(bad, fields[..n]);
    }
  }

  ghost predicate AlwaysClean(scrub: string -> string) {
    forall v :: Clean(Walk(scrub, v))
  }

  ghost predicate AlwaysIdempotent(scrub: string -> string) {
    forall v :: Walk(scrub, Walk(scrub, v)) == Walk(scrub, v)
  }

  /** Scrubbing never turns a string that is not JSON into JSON that shows a secret. */
  ghost predicate NeverUnmasks(scrub: string -> string) {
    forall s :: Nested(s).None? ==> CleanString(scrub(s))
  }

  /** Redacting a scrubbed string that was not JSON changes nothing. */
  ghost predicate AlwaysSteady(scrub: string -> string) {
    forall s :: Nested(s).None? ==> RedactString(scrub, scrub(s)) == scrub(s)
  }

  lemma ScrubbedLeaf(scrub: string -> string, s: string)
    requires Nested(s).None?
    ensures Walk(scrub, Str(s)) == Str(scrub(s))
    ensures Clean(Walk(scrub, Str(s))) == CleanString(scrub(s))
    ensures Walk(scrub, Walk(scrub, Str(s))) == Str(RedactString(scrub, scrub(s)))
  {
  }

  lemma NeverUnmasksSuffices(scrub: string -> string, v: Json)
    requires NeverUnmasks(scrub)
    ensures Clean(Walk(scrub, v))
  {
    forall s | Nested(s).None? ensures !Unmasks(scrub)(s) {
      assert CleanString(scrub(s));
    }
    NoLeaf(Unmasks(scrub), v);
    WalkCleanIff(scrub, v);
  }

  /** Every redaction is deep exactly when the scrub unmasks nothing. */
  lemma AlwaysCleanIff(scrub: string -> string)
    ensures AlwaysClean(scrub) <==> NeverUnmasks(scrub)
  {
    if NeverUnmasks(scrub) {
      forall v ensures Clean(Walk(scrub, v)) {
        NeverUnmasksSuffices(scrub, v);
      }
    }
    if AlwaysClean(scrub) {
      forall s | Nested(s).None? ensures CleanString(scrub(s)) {
        ScrubbedLeaf(scrub, s);
      }
    }
  }

  lemma AlwaysSteadySuffices(scrub: string -> string, v: Json)
    requires AlwaysSteady(scrub)
    ensures Walk(scrub, Walk(scrub, v)) == Walk(scrub, v)
  {
    forall s | Nested(s).None? ensures !Unsteady(scrub)(s) {
      assert RedactString(scrub, scrub(s)) == scrub(s);
    }
    NoLeaf(Unsteady(scrub), v);
    WalkIdempotentIff(scrub, v);
  }

  lemma IdempotentLeaf(scrub: string -> string, s: string)
    requires AlwaysIdempotent(scrub) && Nested(s).None?
    ensures RedactString(scrub, scrub(s)) == scrub(s)
  {
    var v := Str(s);
    assert Walk(scrub, Walk(scrub, v)) == Walk(scrub, v);
    ScrubbedLeaf(scrub, s);
  }

  /** Every redaction is idempotent exactly when the scrub is steady. */
  lemma AlwaysIdempotentIff(scrub: string -> string)
    ensures AlwaysIdempotent(scrub) <==> AlwaysSteady(scrub)
  {
    if AlwaysSteady(scrub) {
      forall v ensures Walk(scrub, Walk(scrub, v)) == Walk(scrub, v) {
        AlwaysSteadySuffices(scrub, v);
      }
    }
    if AlwaysIdempotent(scrub) {
      forall s | Nested(s).None? ensures RedactString(scrub, scrub(s)) == scrub(s) {
        IdempotentLeaf(scrub, s);
      }
    }
  }

  /** The scrub leaves its own results alone and never makes JSON of a string that
      was none. */
  ghost predicate Careful(scrub: string -> string) {
    forall s :: Nested(s).None? ==> Nested(scrub(s)).None? && scrub(scrub(s)) == scrub(s)
  }

  /** With a careful scrub every redaction is deep and idempotent. */
  lemma CarefulScrubSuffices(scrub: string -> string, v: Json)
    requires Careful(scrub)
    ensures Clean(Walk(scrub, v)) && Walk(scrub, Walk(scrub, v)) == Walk(scrub, v)
  {
    NeverUnmasksSuffices(scrub, v);
    AlwaysSteadySuffices(scrub, v);
  }

  /** A string literal that runs into a control character is not read. */
  lemma {:induction false} ControlEndsString(t: string, i: nat)
    requires i < |t| && t[i] < ' ' && forall j :: 0 <= j < i ==> t[j] != '"' && t[j] != '\\'
    ensures ReadString(t) == None
  {
    if i > 0 {
      ControlEndsString(t[1..], i - 1);
    }
  }

  const BEARER_TAIL: string := "bearer\ny\",{\"key\":null}]"

  const RAW_NEWLINE: string := "[\"" + BEARER_TAIL

  const UNMASKED: Json := Arr([Str(PLACEHOLDER), Obj([("key", Null)])])

  lemma BrokenStringIsNotJson(t: string)
    requires ReadString(t) == None
    ensures Nested("[\"" + t) == None
  {
    var s := "[\"" + t;
    var u := s[1..];
    assert u == "\"" + t && u[1..] == t;
    assert ReadValue(Float64, u, MAX_DEPTH - 1) == None;
    assert ReadItems(Float64, u, MAX_DEPTH - 1) == None;
  }

  lemma RawNewlineIsNotJson()
    ensures Nested(RAW_NEWLINE) == None
  {
    assert BEARER_TAIL[..7] == "bearer\n";
    assert forall i :: 0 <= i < 7 ==> BEARER_TAIL[i] == BEARER_TAIL[..7][i];
    ControlEndsString(BEARER_TAIL, 6);
    BrokenStringIsNotJson(BEARER_TAIL);
  }

  /** Scrubbing can unmask: a bearer token with a raw newline after `bearer` keeps
      the text from being JSON until the token is replaced, newline and all, and
      then its secret key stands unredacted one level down. */
  lemma RawNewlineUnmasks(scrub: string -> string)
    requires scrub(RAW_NEWLINE) == Print(UNMASKED)
    ensures !Clean(Walk(scrub, Str(RAW_NEWLINE)))
  {
    RawNewlineIsNotJson();
    UnmaskedShowsSecret();
    NestedRoundTrip(UNMASKED);
  }

  lemma UnmaskedShowsSecret()
    ensures Good(Float64, UNMASKED, MAX_DEPTH) && !Clean(UNMASKED)
  {
    var member: seq<(string, Json)> := [("key", Null)];
    UnmaskedKey(member);
    TwoItems(Str(PLACEHOLDER), Obj(member));
  }

  lemma TwoItems(a: Json, b: Json)
    ensures Clean(Arr([a, b])) <==> Clean(a) && Clean(b)
    ensures Good(Float64, a, MAX_DEPTH - 1) && Good(Float64, b, MAX_DEPTH - 1) ==> Good(Float64, Arr([a, b]), MAX_DEPTH)
  {
    assert [a, b][1..] == [b];
    assert CleanItems([b]) <==> Clean(b);
  }

  lemma UnmaskedKey(member: seq<(string, Json)>)
    requires member == [("key", Null)]
    ensures !Clean(Obj(member)) && Good(Float64, Obj(member), MAX_DEPTH - 1)
  {
    assert Spelled("key", "key", 0);
    assert LooksSecret("key");
  }
}
