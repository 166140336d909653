/** Keyword search over the tools of a namespace. Case mapping and white space
    are parameters: `lower` maps one character, `space` recognises one. */
module Search {

  import opened Prelude
  import opened Naming
  import opened Json
  import opened ToolTable

  datatype ToolInfo = ToolInfo(name: string, server: string, title: string, description: string, schema: Json)

  /** A blank keeps its meaning under the case mapping. */
  datatype Text = Text(lower: char -> char, space: char -> bool)

  ghost predicate SaneText(x: Text) {
    x.lower(' ') == ' ' && x.space(' ')
  }

  function InfoOf(server: string, t: Tool): ToolInfo {
    ToolInfo(Prefixed(server, t.name), server, DisplayTitle(t), t.description, t.schema)
  }

  function InfosOf(server: string, tools: seq<Tool>): (r: seq<ToolInfo>)
    ensures |r| == |tools|
    ensures forall k :: 0 <= k < |r| ==> r[k] == InfoOf(server, tools[k])
  {
    if tools == [] then []
    else InfosOf(server, tools[..|tools| - 1]) + [InfoOf(server, tools[|tools| - 1])]
  }

  /** The tools of the first `|read|` servers, or of those named `only`. */
  function Infos(ns: Namespace, only: string, read: seq<Option<seq<Tool>>>): seq<ToolInfo>
    requires |read| <= |ns.servers|
  {
    if read == [] then []
    else
      var k := |read| - 1;
      Infos(ns, only, read[..k]) +
      if only != "" && ns.servers[k] != only then [] else InfosOf(ns.servers[k], ToolsOf(read[k]))
  }

  function Lower(x: Text, s: string): (r: string)
    ensures |r| == |s| && forall i :: 0 <= i < |s| ==> r[i] == x.lower(s[i])
  {
    seq(|s|, i requires 0 <= i < |s| => x.lower(s[i]))
  }

  /** Underscores become blanks. */
  function Spaced(s: string): (r: string)
    ensures |r| == |s|
  {
    seq(|s|, i requires 0 <= i < |s| => if s[i] == '_' then ' ' else s[i])
  }

  /** The maximal runs without white space. */
  function Fields(x: Text, s: string): (r: seq<string>)
    ensures forall t :: t in r ==> Word(x, t)
    decreases |s|
  {
    if s == "" then []
    else if x.space(s[0]) then Fields(x, s[1..])
    else
      var n := WordEnd(x, s);
      [s[..n]] + Fields(x, s[n..])
  }

  predicate Word(x: Text, t: string) {
    t != "" && forall i :: 0 <= i < |t| ==> !x.space(t[i])
  }

  function WordEnd(x: Text, s: string): (n: nat)
    ensures n <= |s| && (s != "" && !x.space(s[0]) ==> n > 0)
    ensures forall i :: 0 <= i < n ==> !x.space(s[i])
  {
    if s == "" || x.space(s[0]) then 0 else 1 + WordEnd(x, s[1..])
  }

  predicate OccursAt(s: string, sub: string, i: nat) {
    i + |sub| <= |s| && s[i..i + |sub|] == sub
  }

  predicate Contains(s: string, sub: string) {
    exists i :: 0 <= i <= |s| && OccursAt(s, sub, i)
  }

  function Member(fields: seq<(string, Json)>, k: string): Option<Json> {
    if fields == [] then None
    else if fields[0].0 == k then Some(fields[0].1)
    else Member(fields[1..], k)
  }

  /** The properties of a schema, in the order a map iteration visits them. */
  function Properties(schema: Json): seq<(string, Json)> {
    if !schema.Obj? then []
    else match Member(schema.fields, "properties")
      case Some(Obj(props)) => props
      case _ => []
  }

  /** The words one property contributes. */
  function PropertyWords(p: (string, Json)): seq<string> {
    [Spaced(p.0)] +
    if !p.1.Obj? then []
    else match Member(p.1.fields, "description")
      case Some(Str(d)) => [d]
      case _ => []
  }

  function KeyWords(props: seq<(string, Json)>): seq<string> {
    if props == [] then []
    else KeyWords(props[..|props| - 1]) + PropertyWords(props[|props| - 1])
  }

  function Join(words: seq<string>): string {
    if words == [] then ""
    else if |words| == 1 then words[0]
    else Join(words[..|words| - 1]) + " " + words[|words| - 1]
  }

  function SchemaKeys(schema: Json): string {
    Join(KeyWords(Properties(schema)))
  }

  /** What one query word earns a tool. */
  function WordScore(x: Text, info: ToolInfo, word: string): nat {
    if Contains(Lower(x, Spaced(info.name)), word) then 3
    else if Contains(Lower(x, info.title), word) then 2
    else if Contains(Lower(x, SchemaKeys(info.schema)), word) then 2
    else if Contains(Lower(x, info.description), word) then 1
    else 0
  }

  function Score(x: Text, info: ToolInfo, words: seq<string>): nat {
    if words == [] then 0
    else Score(x, info, words[..|words| - 1]) + WordScore(x, info, words[|words| - 1])
  }

  datatype Hit = Hit(info: ToolInfo, score: nat)

  function Hits(x: Text, infos: seq<ToolInfo>, words: seq<string>): seq<Hit> {
    if infos == [] then []
    else
      var last := infos[|infos| - 1];
      var s := Score(x, last, words);
      Hits(x, infos[..|infos| - 1], words) + if s > 0 then [Hit(last, s)] else []
  }

  /** `a` ranks strictly before `b`: higher score, then smaller name. */
  predicate Before(a: Hit, b: Hit) {
    a.score > b.score || (a.score == b.score && Less(a.info.name, b.info.name))
  }

  /** Inserts behind everything that does not rank after it: a stable sort's step. */
  function Insert(ranked: seq<Hit>, h: Hit): seq<Hit> {
    if ranked == [] then [h]
    else
      var last := ranked[|ranked| - 1];
      if Before(h, last) then Insert(ranked[..|ranked| - 1], h) + [last] else ranked + [h]
  }

  function Ranked(hits: seq<Hit>): seq<Hit> {
    if hits == [] then [] else Insert(Ranked(hits[..|hits| - 1]), hits[|hits| - 1])
  }

  function Take(hits: seq<Hit>, limit: nat): seq<Hit> {
    if |hits| > limit then hits[..limit] else hits
  }

  function Found(x: Text, infos: seq<ToolInfo>, words: seq<string>, limit: nat): seq<Hit> {
    if words == [] then [] else Take(Ranked(Hits(x, infos, words)), limit)
  }

  /** The tool infos of a namespace, server by server. */
  method ToolInfos(ns: Namespace, only: string, read: seq<Option<seq<Tool>>>) returns (out: seq<ToolInfo>)
    requires |read| == |ns.servers|
    ensures out == Infos(ns, only, read)
  {
    out := [];
    for k := 0 to |ns.servers|
      invariant out == Infos(ns, only, read[..k])
    {
      assert read[..k + 1][..k] == read[..k];
      var server := ns.servers[k];
      if only != "" && server != only {
        continue;
      }
      if read[k].None? {
        continue;
      }
      var tools := read[k].value;
      ghost var before := out;
      for j := 0 to |tools|
        invariant out == before + InfosOf(server, tools[..j])
      {
        assert tools[..j + 1][..j] == tools[..j];
        AppendAssoc(before, InfosOf(server, tools[..j]), [InfoOf(server, tools[j])]);
        out := out + [InfoOf(server, tools[j])];
      }
      assert tools[..|tools|] == tools;
    }
    assert read[..|read|] == read;
  }

  /** Ranks the tools by the query words they match and keeps the best. */
  method FindTools(x: Text, infos: seq<ToolInfo>, query: string, limit: nat) returns (out: seq<ToolInfo>)
    ensures var found := Found(x, infos, Fields(x, Lower(x, query)), limit);
            |out| == |found| && forall i :: 0 <= i < |out| ==> out[i] == found[i].info
  {
    var words := Fields(x, Lower(x, query));
    out := [];
    if words == [] {
      return;
    }
    var hits: seq<Hit> := [];
    for k := 0 to |infos|
      invariant hits == Hits(x, infos[..k], words)
    {
      assert infos[..k + 1][..k] == infos[..k];
      var score := ScoreOf(x, infos[k], words);
      if score > 0 {
        hits := hits + [Hit(infos[k], score)];
      }
    }
    assert infos[..|infos|] == infos;
    hits := Take(Ranked(hits), limit);
    for k := 0 to |hits|
      invariant |out| == k && forall i :: 0 <= i < k ==> out[i] == hits[i].info
    {
      out := out + [hits[k].info];
    }
  }

  method ScoreOf(x: Text, info: ToolInfo, words: seq<string>) returns (score: nat)
    ensures score == Score(x, info, words)
  {
    var name := Lower(x, Spaced(info.name));
    var title := Lower(x, info.title);
    var desc := Lower(x, info.description);
    var params := Lower(x, SchemaKeys(info.schema));
    score := 0;
    for k := 0 to |words|
      invariant score == Score(x, info, words[..k])
    {
      assert words[..k + 1][..k] == words[..k];
      var word := words[k];
      if Contains(name, word) {
        score := score + 3;
      } else if Contains(title, word) {
        score := score + 2;
      } else if Contains(params, word) {
        score := score + 2;
      } else if Contains(desc, word) {
        score := score + 1;
      }
    }
    assert words[..|words|] == words;
  }

  // -------------------------------------------------------------- query words

  lemma {:induction false} WordEndAt(x: Text, word: string, rest: string)
    requires Word(x, word) && (rest != "" ==> x.space(rest[0]))
    ensures WordEnd(x, word + rest) == |word|
  {
    var s := word + rest;
    assert s[0] == word[0];
    if |word| > 1 {
      WordEndAt(x, word[1..], rest);
      assert s[1..] == word[1..] + rest;
    } else {
      assert s[1..] == rest;
    }
  }

  lemma FieldsOfWord(x: Text, word: string, rest: string)
    requires Word(x, word) && (rest != "" ==> x.space(rest[0]))
    ensures Fields(x, word + rest) == [word] + (if rest == "" then [] else Fields(x, rest[1..]))
  {
    var s := word + rest;
    WordEndAt(x, word, rest);
    assert s[0] == word[0] && s[..|word|] == word && s[|word|..] == rest;
  }

  lemma {:induction false} JoinFromLeft(word: string, words: seq<string>)
    requires words != []
    ensures Join([word] + words) == word + " " + Join(words)
  {
    var all := [word] + words;
    var n := |words| - 1;
    assert all[..|all| - 1] == [word] + words[..n];
    if n == 0 {
      assert Join([word]) == word;
    } else {
      JoinFromLeft(word, words[..n]);
      assert Join(all) == word + " " + Join(words[..n]) + " " + words[n];
      assert Join(words) == Join(words[..n]) + " " + words[n];
    }
  }

  /** Splitting a query into words undoes joining the words with blanks. */
  lemma {:induction false} FieldsInvertJoin(x: Text, words: seq<string>)
    requires SaneText(x) && forall w :: w in words ==> Word(x, w)
    ensures Fields(x, Join(words)) == words
  {
    if |words| == 1 {
      FieldsOfWord(x, words[0], "");
      assert words[0] + "" == words[0];
    } else if |words| > 1 {
      var rest := words[1..];
      FieldsInvertJoin(x, rest);
      JoinFromLeft(words[0], rest);
      assert words == [words[0]] + rest;
      FieldsOfWord(x, words[0], " " + Join(rest));
      assert (" " + Join(rest))[1..] == Join(rest);
      AppendAssoc(words[0], " ", Join(rest));
    }
  }

  function Flat(words: seq<string>): string {
    if words == [] then "" else words[0] + Flat(words[1..])
  }

  /** What of a string is not white space. */
  function Solid(x: Text, s: string): string {
    if s == "" then "" else (if x.space(s[0]) then "" else [s[0]]) + Solid(x, s[1..])
  }

  lemma {:induction false} SolidWord(x: Text, word: string, rest: string)
    requires forall i :: 0 <= i < |word| ==> !x.space(word[i])
    ensures Solid(x, word + rest) == word + Solid(x, rest)
  {
    if word == "" {
      assert word + rest == rest;
    } else {
      SolidWord(x, word[1..], rest);
      assert (word + rest)[1..] == word[1..] + rest;
    }
  }

  /** Splitting a query loses nothing but white space. */
  lemma {:induction false} FieldsKeepText(x: Text, s: string)
    ensures Flat(Fields(x, s)) == Solid(x, s)
    decreases |s|
  {
    if s != "" {
      if x.space(s[0]) {
        FieldsKeepText(x, s[1..]);
      } else {
        var n := WordEnd(x, s);
        FieldsKeepText(x, s[n..]);
        assert s == s[..n] + s[n..];
        SolidWord(x, s[..n], s[n..]);
        assert ([s[..n]] + Fields(x, s[n..]))[1..] == Fields(x, s[n..]);
      }
    }
  }

  // -------------------------------------------------------------- ranking

  /** Higher scores first, and of equal scores no name before a smaller one. */
  ghost predicate InOrder(hits: seq<Hit>) {
    forall i, j :: 0 <= i < j < |hits| ==>
      || hits[i].score > hits[j].score
      || (hits[i].score == hits[j].score && !Less(hits[j].info.name, hits[i].info.name))
  }

  lemma BeforeTransitive(a: Hit, b: Hit, c: Hit)
    requires Before(a, b) && !Before(c, b)
    ensures Before(a, c)
  {
    if a.score == b.score && b.score == c.score {
      LessTotal(b.info.name, c.info.name);
      if b.info.name != c.info.name {
        LessTransitive(a.info.name, b.info.name, c.info.name);
      }
    }
  }

  lemma BeforeAsymmetric(a: Hit, b: Hit)
    requires Before(a, b)
    ensures !Before(b, a)
  {
    LessTotal(a.info.name, b.info.name);
  }

  lemma {:induction false} InsertMembers(ranked: seq<Hit>, h: Hit)
    ensures multiset(Insert(ranked, h)) == multiset(ranked) + multiset{h}
  {
    if ranked != [] {
      var n := |ranked| - 1;
      assert ranked == ranked[..n] + [ranked[n]];
      if Before(h, ranked[n]) {
        InsertMembers(ranked[..n], h);
      }
    }
  }

  lemma {:induction false} InsertOrdered(ranked: seq<Hit>, h: Hit)
    requires InOrder(ranked)
    ensures InOrder(Insert(ranked, h))
  {
    if ranked != [] {
      var n := |ranked| - 1;
      var last := ranked[n];
      if Before(h, last) {
        InsertOrdered(ranked[..n], h);
        InsertMembers(ranked[..n], h);
        NoneBehind(ranked, h, Insert(ranked[..n], h));
      } else {
        forall i | 0 <= i < n ensures !Before(h, ranked[i]) {
          if Before(h, ranked[i]) {
            BeforeTransitive(h, ranked[i], last);
          }
        }
      }
    }
  }

  /** What comes before the last stays there when something better joins it. */
  lemma NoneBehind(ranked: seq<Hit>, h: Hit, r: seq<Hit>)
    requires ranked != [] && InOrder(ranked) && Before(h, ranked[|ranked| - 1])
    requires multiset(r) == multiset(ranked[..|ranked| - 1]) + multiset{h}
    ensures forall i :: 0 <= i < |r| ==> !Before(ranked[|ranked| - 1], r[i])
  {
    var n := |ranked| - 1;
    forall i | 0 <= i < |r| ensures !Before(ranked[n], r[i]) {
      assert r[i] in multiset(r);
      if r[i] == h {
        BeforeAsymmetric(h, ranked[n]);
      } else {
        assert r[i] in ranked[..n];
      }
    }
  }

  lemma {:induction false} RankedOrdered(hits: seq<Hit>)
    ensures InOrder(Ranked(hits)) && multiset(Ranked(hits)) == multiset(hits)
  {
    if hits != [] {
      var n := |hits| - 1;
      RankedOrdered(hits[..n]);
      InsertOrdered(Ranked(hits[..n]), hits[n]);
      InsertMembers(Ranked(hits[..n]), hits[n]);
      assert hits == hits[..n] + [hits[n]];
    }
  }

  lemma {:induction false} HitsCount(x: Text, infos: seq<ToolInfo>, words: seq<string>, h: Hit)
    ensures multiset(Hits(x, infos, words))[h] ==
            if h.score > 0 && h.score == Score(x, h.info, words) then multiset(infos)[h.info] else 0
  {
    if infos != [] {
      var n := |infos| - 1;
      HitsCount(x, infos[..n], words, h);
      assert infos == infos[..n] + [infos[n]];
      SnocCount(infos[..n], infos[n], h.info);
      LastHitCount(x, infos, words, h);
    }
  }

  lemma LastHitCount(x: Text, infos: seq<ToolInfo>, words: seq<string>, h: Hit)
    requires infos != []
    ensures var n := |infos| - 1;
            multiset(Hits(x, infos, words))[h] == multiset(Hits(x, infos[..n], words))[h] +
              if infos[n] == h.info && h.score > 0 && h.score == Score(x, h.info, words) then 1 else 0
  {
    var n := |infos| - 1;
    var rest, s := Hits(x, infos[..n], words), Score(x, infos[n], words);
    if s > 0 {
      assert Hits(x, infos, words) == rest + [Hit(infos[n], s)];
      SnocCount(rest, Hit(infos[n], s), h);
    } else {
      assert Hits(x, infos, words) == rest;
    }
  }

  lemma SnocCount<T>(s: seq<T>, e: T, t: T)
    ensures multiset(s + [e])[t] == multiset(s)[t] + if e == t then 1 else 0
  {
  }

  /** The answer is the top of the ranking: it is ordered by score, highest first, and
      by name where scores are equal; holds only tools that match; holds every match
      unless the limit cuts it off; and nothing cut off has a higher score than
      anything kept, nor a smaller name at an equal score. */
  lemma FoundIsTopK(x: Text, infos: seq<ToolInfo>, words: seq<string>, limit: nat)
    requires words != []
    ensures var out := Found(x, infos, words, limit);
            && InOrder(out) && |out| == (if |Hits(x, infos, words)| > limit then limit else |Hits(x, infos, words)|)
            && (forall h :: h in out ==> h.info in infos && h.score == Score(x, h.info, words) > 0)
            && (forall i :: i in infos && Score(x, i, words) > 0 && Hit(i, Score(x, i, words)) !in out ==>
                  |out| == limit && forall h :: h in out ==>
                    || h.score > Score(x, i, words)
                    || (h.score == Score(x, i, words) && !Less(i.name, h.info.name)))
  {
    var hits, out := Hits(x, infos, words), Found(x, infos, words, limit);
    var r := Ranked(hits);
    RankedOrdered(hits);
    RankedLength(hits);
    FrontPart(r, out);
    forall h | h in out ensures h.info in infos && h.score == Score(x, h.info, words) > 0 {
      RankedAreMatches(x, infos, words, h);
    }
    forall i | i in infos && Score(x, i, words) > 0 && Hit(i, Score(x, i, words)) !in out
      ensures |out| == limit
      ensures forall h :: h in out ==>
                || h.score > Score(x, i, words)
                || (h.score == Score(x, i, words) && !Less(i.name, h.info.name))
    {
      MatchesAreRanked(x, infos, words, i);
      LeftOut(r, out, Hit(i, Score(x, i, words)));
    }
  }

  lemma RankedLength(hits: seq<Hit>)
    ensures |Ranked(hits)| == |hits|
  {
    RankedOrdered(hits);
    assert |Ranked(hits)| == |multiset(Ranked(hits))| == |multiset(hits)|;
  }

  lemma FrontPart(r: seq<Hit>, out: seq<Hit>)
    requires InOrder(r) && out <= r
    ensures InOrder(out) && forall h :: h in out ==> h in r
  {
    assert forall i :: 0 <= i < |out| ==> out[i] == r[i];
  }

  lemma RankedAreMatches(x: Text, infos: seq<ToolInfo>, words: seq<string>, h: Hit)
    requires h in Ranked(Hits(x, infos, words))
    ensures h.info in infos && h.score == Score(x, h.info, words) > 0
  {
    RankedOrdered(Hits(x, infos, words));
    assert h in multiset(Ranked(Hits(x, infos, words)));
    HitsCount(x, infos, words, h);
    assert h.info in multiset(infos);
  }

  lemma MatchesAreRanked(x: Text, infos: seq<ToolInfo>, words: seq<string>, i: ToolInfo)
    requires i in infos && Score(x, i, words) > 0
    ensures Hit(i, Score(x, i, words)) in Ranked(Hits(x, infos, words))
  {
    var m := Hit(i, Score(x, i, words));
    RankedOrdered(Hits(x, infos, words));
    HitsCount(x, infos, words, m);
    assert i in multiset(infos) && m in multiset(Ranked(Hits(x, infos, words)));
  }

  /** What a front part of a ranking leaves out comes after it. */
  lemma LeftOut(r: seq<Hit>, out: seq<Hit>, m: Hit)
    requires InOrder(r) && out <= r && m in r && m !in out
    ensures |out| < |r| && forall h :: h in out ==> !Before(m, h)
  {
    var k :| 0 <= k < |r| && r[k] == m;
    assert forall j :: 0 <= j < |out| ==> r[j] == out[j] && r[j] in out;
  }

  // ----------------------------------------------------------- what a score is

  /** The word stands at position `i` of a text, cases aside. */
  predicate Stands(x: Text, text: string, word: string, i: nat) {
    i + |word| <= |text| && forall k :: 0 <= k < |word| ==> x.lower(text[i + k]) == word[k]
  }

  /** The same where an underscore counts as a blank. */
  predicate StandsSpaced(x: Text, text: string, word: string, i: nat) {
    i + |word| <= |text| &&
    forall k :: 0 <= k < |word| ==> x.lower(if text[i + k] == '_' then ' ' else text[i + k]) == word[k]
  }

  ghost predicate Within(x: Text, text: string, word: string) {
    exists i: nat :: Stands(x, text, word, i)
  }

  ghost predicate WithinSpaced(x: Text, text: string, word: string) {
    exists i: nat :: StandsSpaced(x, text, word, i)
  }

  /** The first member of that name. */
  ghost predicate HasMember(fields: seq<(string, Json)>, k: string, v: Json) {
    exists i: nat :: i < |fields| && fields[i] == (k, v) && forall j :: 0 <= j < i ==> fields[j].0 != k
  }

  ghost predicate HasProperty(schema: Json, p: (string, Json)) {
    schema.Obj? && exists props: seq<(string, Json)> :: HasMember(schema.fields, "properties", Obj(props)) && p in props
  }

  /** The word is in the name of a parameter or in its description. */
  ghost predicate InProperty(x: Text, p: (string, Json), word: string) {
    || WithinSpaced(x, p.0, word)
    || (p.1.Obj? && exists d: string :: HasMember(p.1.fields, "description", Str(d)) && Within(x, d, word))
  }

  lemma {:induction false} MemberIff(fields: seq<(string, Json)>, k: string, v: Json)
    ensures Member(fields, k) == Some(v) <==> HasMember(fields, k, v)
  {
    if fields != [] && fields[0].0 != k {
      MemberIff(fields[1..], k, v);
      if i: nat :| i < |fields[1..]| && fields[1..][i] == (k, v) && forall j :: 0 <= j < i ==> fields[1..][j].0 != k {
        assert fields[i + 1] == (k, v);
        assert forall j :: 0 < j < i + 1 ==> fields[j] == fields[1..][j - 1];
      }
      if i: nat :| i < |fields| && fields[i] == (k, v) && forall j :: 0 <= j < i ==> fields[j].0 != k {
        assert fields[1..][i - 1] == (k, v);
        assert forall j :: 0 <= j < i - 1 ==> fields[1..][j] == fields[j + 1];
      }
    }
    if fields != [] && fields[0] == (k, v) {
      assert HasMember(fields, k, v);
    }
  }

  lemma PropertyIff(schema: Json, p: (string, Json))
    ensures p in Properties(schema) <==> HasProperty(schema, p)
  {
    if schema.Obj? {
      match Member(schema.fields, "properties")
      case Some(v) =>
        forall w ensures HasMember(schema.fields, "properties", w) <==> w == v {
          MemberIff(schema.fields, "properties", w);
        }
      case None =>
        forall w ensures !HasMember(schema.fields, "properties", w) {
          MemberIff(schema.fields, "properties", w);
        }
    }
  }

  lemma WithinIff(x: Text, text: string, word: string)
    ensures Contains(Lower(x, text), word) <==> Within(x, text, word)
  {
    var low := Lower(x, text);
    forall i: nat | i <= |low| ensures OccursAt(low, word, i) <==> Stands(x, text, word, i) {
      if i + |word| <= |low| {
        var part := low[i..i + |word|];
        assert forall k :: 0 <= k < |word| ==> part[k] == low[i + k];
      }
    }
  }

  lemma WithinSpacedIff(x: Text, text: string, word: string)
    ensures Contains(Lower(x, Spaced(text)), word) <==> WithinSpaced(x, text, word)
  {
    SpacedIs(text);
    WithinIff(x, Spaced(text), word);
    forall i: nat ensures Stands(x, Spaced(text), word, i) <==> StandsSpaced(x, text, word, i) {
    }
  }

  lemma SpacedIs(text: string)
    ensures forall i :: 0 <= i < |text| ==> Spaced(text)[i] == if text[i] == '_' then ' ' else text[i]
  {
  }

  lemma PropertyWordsIff(x: Text, p: (string, Json), word: string)
    ensures (exists w :: w in PropertyWords(p) && Contains(Lower(x, w), word)) <==> InProperty(x, p, word)
  {
    WithinSpacedIff(x, p.0, word);
    assert Spaced(p.0) in PropertyWords(p);
    if p.1.Obj? {
      forall d: string
        ensures HasMember(p.1.fields, "description", Str(d)) <==> Member(p.1.fields, "description") == Some(Str(d))
        ensures Contains(Lower(x, d), word) <==> Within(x, d, word)
      {
        MemberIff(p.1.fields, "description", Str(d));
        WithinIff(x, d, word);
      }
    }
  }

  lemma SchemaKeysIff(x: Text, schema: Json, word: string)
    requires SaneText(x) && Word(x, word)
    ensures Contains(Lower(x, SchemaKeys(schema)), word) <==> exists p :: HasProperty(schema, p) && InProperty(x, p, word)
  {
    var props := Properties(schema);
    var keys := KeyWords(props);
    WordInJoin(x, keys, word);
    forall p
      ensures p in props <==> HasProperty(schema, p)
      ensures (exists w :: w in PropertyWords(p) && Contains(Lower(x, w), word)) <==> InProperty(x, p, word)
    {
      PropertyIff(schema, p);
      PropertyWordsIff(x, p, word);
    }
    if k :| 0 <= k < |keys| && Contains(Lower(x, keys[k]), word) {
      var p := KeyOf(props, keys[k]);
      assert HasProperty(schema, p) && InProperty(x, p, word);
    }
    if p :| HasProperty(schema, p) && InProperty(x, p, word) {
      var w :| w in PropertyWords(p) && Contains(Lower(x, w), word);
      KeyWordsMembers(props, w);
      var k :| 0 <= k < |keys| && keys[k] == w;
    }
  }

  lemma KeyOf(props: seq<(string, Json)>, w: string) returns (p: (string, Json))
    requires w in KeyWords(props)
    ensures p in props && w in PropertyWords(p)
  {
    KeyWordsMembers(props, w);
    p :| p in props && w in PropertyWords(p);
  }

  /** A word earns three points in the name, else two in the title or in a parameter's
      name or description, else one in the description. */
  lemma WordScoreIs(x: Text, info: ToolInfo, word: string)
    requires SaneText(x) && Word(x, word)
    ensures WordScore(x, info, word) ==
            if WithinSpaced(x, info.name, word) then 3
            else if Within(x, info.title, word) || exists p :: HasProperty(info.schema, p) && InProperty(x, p, word) then 2
            else if Within(x, info.description, word) then 1
            else 0
  {
    WithinSpacedIff(x, info.name, word);
    WithinIff(x, info.title, word);
    WithinIff(x, info.description, word);
    SchemaKeysIff(x, info.schema, word);
  }

  /** And the words of a query add up. */
  lemma ScoreAdds(x: Text, info: ToolInfo, a: seq<string>, b: seq<string>)
    ensures Score(x, info, a + b) == Score(x, info, a) + Score(x, info, b)
    ensures Score(x, info, []) == 0 && forall w :: Score(x, info, [w]) == WordScore(x, info, w)
  {
    forall w ensures Score(x, info, [w]) == WordScore(x, info, w) {
      assert [w][..0] == [];
    }
    ScoreConcat(x, info, a, b);
  }

  lemma {:induction false} ScoreConcat(x: Text, info: ToolInfo, a: seq<string>, b: seq<string>)
    ensures Score(x, info, a + b) == Score(x, info, a) + Score(x, info, b)
  {
    if b == [] {
      assert a + b == a;
    } else {
      assert (a + b)[..|a + b| - 1] == a + b[..|b| - 1];
      ScoreConcat(x, info, a, b[..|b| - 1]);
    }
  }

  // ---------------------------------------------------------- determinism

  ghost predicate UniqueInfoNames(infos: seq<ToolInfo>) {
    forall i, j :: 0 <= i < j < |infos| ==> infos[i].name != infos[j].name
  }

  /** Strictly ranked: each hit before all that follow. */
  ghost predicate Strict(hits: seq<Hit>) {
    forall i, j :: 0 <= i < j < |hits| ==> Before(hits[i], hits[j])
  }

  lemma SameTop(a: seq<Hit>, b: seq<Hit>)
    requires Strict(a) && Strict(b) && multiset(a) == multiset(b) && a != []
    ensures b != [] && a[0] == b[0]
  {
    assert a[0] in multiset(b);
    var i :| 0 <= i < |b| && b[i] == a[0];
    assert b[0] in multiset(a);
    var j :| 0 <= j < |a| && a[j] == b[0];
    if i > 0 && j > 0 {
      BeforeAsymmetric(a[0], a[j]);
    }
  }

  lemma DropTop<T>(a: seq<T>)
    requires a != []
    ensures multiset(a[1..]) == multiset(a) - multiset{a[0]}
  {
    assert a == [a[0]] + a[1..];
  }

  /** Two strict rankings of the same hits are the same. */
  lemma {:induction false} StrictIsUnique(a: seq<Hit>, b: seq<Hit>)
    requires Strict(a) && Strict(b) && multiset(a) == multiset(b)
    ensures a == b
  {
    if a == [] {
      assert |multiset(b)| == 0;
    } else {
      SameTop(a, b);
      DropTop(a);
      DropTop(b);
      StrictIsUnique(a[1..], b[1..]);
      assert a == [a[0]] + a[1..] && b == [b[0]] + b[1..];
    }
  }

  ghost predicate UniqueHitNames(hits: seq<Hit>) {
    forall i, j :: 0 <= i < j < |hits| ==> hits[i].info.name != hits[j].info.name
  }

  lemma {:induction false} HitsAreTools(x: Text, infos: seq<ToolInfo>, words: seq<string>)
    ensures forall h :: h in Hits(x, infos, words) ==> h.info in infos
  {
    if infos != [] {
      HitsAreTools(x, infos[..|infos| - 1], words);
    }
  }

  /** Names are unique among hits where they are among the tools. */
  lemma {:induction false} HitNamesUnique(x: Text, infos: seq<ToolInfo>, words: seq<string>)
    requires UniqueInfoNames(infos)
    ensures UniqueHitNames(Hits(x, infos, words))
  {
    if infos != [] {
      var n := |infos| - 1;
      HitNamesUnique(x, infos[..n], words);
      HitsAreTools(x, infos[..n], words);
      var h := Hits(x, infos[..n], words);
      forall i | 0 <= i < |h| ensures h[i].info.name != infos[n].name {
        assert h[i] in h;
      }
    }
  }

  lemma RankedStrict(hits: seq<Hit>)
    requires UniqueHitNames(hits)
    ensures Strict(Ranked(hits))
  {
    var r := Ranked(hits);
    RankedOrdered(hits);
    forall i, j | 0 <= i < j < |r| ensures Before(r[i], r[j]) {
      PermutedNamesUnique(hits, r, i, j);
      LessTotal(r[i].info.name, r[j].info.name);
    }
  }

  lemma PermutedNamesUnique(hits: seq<Hit>, r: seq<Hit>, i: nat, j: nat)
    requires UniqueHitNames(hits)
    requires multiset(r) == multiset(hits) && i < j < |r|
    ensures r[i].info.name != r[j].info.name
  {
    assert r[i] in multiset(hits) && r[j] in multiset(hits);
    var k :| 0 <= k < |hits| && hits[k] == r[i];
    var l :| 0 <= l < |hits| && hits[l] == r[j];
    if r[i] == r[j] {
      TwiceCounted(r, i, j);
      OnceCounted(hits, k);
    }
  }

  lemma {:induction false} TwiceCounted<T>(s: seq<T>, i: nat, j: nat)
    requires i < j < |s| && s[i] == s[j]
    ensures multiset(s)[s[i]] >= 2
  {
    assert s == s[..j] + [s[j]] + s[j + 1..];
    assert s[..j][i] == s[i];
    assert s[i] in multiset(s[..j]);
  }

  lemma {:induction false} OnceCounted(hits: seq<Hit>, k: nat)
    requires k < |hits| && UniqueHitNames(hits)
    ensures multiset(hits)[hits[k]] == 1
  {
    assert hits == hits[..k] + [hits[k]] + hits[k + 1..];
    assert hits[k] !in hits[..k] && hits[k] !in hits[k + 1..];
  }

  lemma SameHits(x: Text, a: seq<ToolInfo>, b: seq<ToolInfo>, words: seq<string>)
    requires multiset(a) == multiset(b)
    ensures multiset(Hits(x, a, words)) == multiset(Hits(x, b, words))
  {
    var ha, hb := multiset(Hits(x, a, words)), multiset(Hits(x, b, words));
    forall h ensures ha[h] == hb[h] {
      HitsCount(x, a, words, h);
      HitsCount(x, b, words, h);
    }
  }

  /** With unique names the answer does not depend on the order of the catalog. */
  lemma SearchIgnoresCatalogOrder(x: Text, a: seq<ToolInfo>, b: seq<ToolInfo>, words: seq<string>, limit: nat)
    requires multiset(a) == multiset(b) && UniqueInfoNames(a) && UniqueInfoNames(b)
    ensures Found(x, a, words, limit) == Found(x, b, words, limit)
  {
    var ha, hb := Hits(x, a, words), Hits(x, b, words);
    SameHits(x, a, b, words);
    HitNamesUnique(x, a, words);
    HitNamesUnique(x, b, words);
    RankedStrict(ha);
    RankedStrict(hb);
    RankedOrdered(ha);
    RankedOrdered(hb);
    StrictIsUnique(Ranked(ha), Ranked(hb));
  }

  lemma FromLeft(a: string, b: string, word: string)
    requires Contains(a, word)
    ensures Contains(a + b, word)
  {
    var i :| 0 <= i <= |a| && OccursAt(a, word, i);
    assert (a + b)[i..i + |word|] == a[i..i + |word|];
    assert OccursAt(a + b, word, i);
  }

  lemma FromRight(a: string, b: string, word: string)
    requires Contains(b, word)
    ensures Contains(a + b, word)
  {
    var i :| 0 <= i <= |b| && OccursAt(b, word, i);
    assert (a + b)[|a| + i..|a| + i + |word|] == b[i..i + |word|];
    assert OccursAt(a + b, word, |a| + i);
  }

  /** An occurrence that does not touch the character after `a` lies on one side of it. */
  lemma OnOneSide(a: string, c: char, b: string, word: string, i: nat)
    requires OccursAt(a + [c] + b, word, i) && c !in word
    ensures Contains(a, word) || Contains(b, word)
  {
    var s := a + [c] + b;
    assert forall k :: 0 <= k < |word| ==> word[k] == s[i + k];
    assert s[|a|] == c;
    assert |a| < i || i + |word| <= |a|;
    if i + |word| <= |a| {
      assert a[i..i + |word|] == s[i..i + |word|];
      assert OccursAt(a, word, i);
    } else {
      var j := i - |a| - 1;
      assert b[j..j + |word|] == s[i..i + |word|];
      assert OccursAt(b, word, j);
    }
  }

  /** A word occurs in two texts joined by a blank exactly when it occurs in one of them. */
  lemma WordStaysInside(x: Text, a: string, b: string, word: string)
    requires SaneText(x) && Word(x, word)
    ensures Contains(Lower(x, a + " " + b), word) <==> Contains(Lower(x, a), word) || Contains(Lower(x, b), word)
  {
    var s := Lower(x, a + " " + b);
    var la, lb := Lower(x, a), Lower(x, b);
    assert s == la + [' '] + lb;
    if Contains(s, word) {
      var i :| 0 <= i <= |s| && OccursAt(s, word, i);
      OnOneSide(la, ' ', lb, word, i);
    }
    if Contains(la, word) {
      FromLeft(la, [' '] + lb, word);
      AppendAssoc(la, [' '], lb);
    }
    if Contains(lb, word) {
      FromRight(la + [' '], lb, word);
    }
  }

  lemma {:induction false} WordInJoin(x: Text, words: seq<string>, word: string)
    requires SaneText(x) && Word(x, word)
    ensures Contains(Lower(x, Join(words)), word) <==> exists k :: 0 <= k < |words| && Contains(Lower(x, words[k]), word)
  {
    if |words| == 0 {
      assert Lower(x, Join(words)) == "";
    } else if |words| > 1 {
      var n := |words| - 1;
      WordInJoin(x, words[..n], word);
      WordStaysInside(x, Join(words[..n]), words[n], word);
      assert forall k :: 0 <= k < n ==> words[..n][k] == words[k];
    }
  }

  lemma {:induction false} KeyWordsMembers(props: seq<(string, Json)>, w: string)
    ensures w in KeyWords(props) <==> exists p :: p in props && w in PropertyWords(p)
  {
    if props != [] {
      var n := |props| - 1;
      KeyWordsMembers(props[..n], w);
      assert forall p :: p in props <==> p in props[..n] || p == props[n];
    }
  }

  /** The same tool with the properties of its schema visited in another order. */
  predicate Alike(a: ToolInfo, b: ToolInfo) {
    && a.(schema := Null) == b.(schema := Null)
    && (forall p :: p in Properties(a.schema) ==> p in Properties(b.schema))
    && (forall p :: p in Properties(b.schema) ==> p in Properties(a.schema))
  }

  lemma WordScoreIgnoresMapOrder(x: Text, a: ToolInfo, b: ToolInfo, word: string)
    requires SaneText(x) && Word(x, word) && Alike(a, b)
    ensures WordScore(x, a, word) == WordScore(x, b, word)
  {
    var ka, kb := KeyWords(Properties(a.schema)), KeyWords(Properties(b.schema));
    forall w ensures w in ka <==> w in kb {
      KeyWordsMembers(Properties(a.schema), w);
      KeyWordsMembers(Properties(b.schema), w);
    }
    WordInJoin(x, ka, word);
    WordInJoin(x, kb, word);
    if k :| 0 <= k < |ka| && Contains(Lower(x, ka[k]), word) {
      assert ka[k] in kb;
    }
    if k :| 0 <= k < |kb| && Contains(Lower(x, kb[k]), word) {
      assert kb[k] in ka;
    }
  }

  /** A tool's score does not depend on the iteration order of its schema's map. */
  lemma {:induction false} ScoreIgnoresMapOrder(x: Text, a: ToolInfo, b: ToolInfo, words: seq<string>)
    requires SaneText(x) && (forall w :: w in words ==> Word(x, w)) && Alike(a, b)
    ensures Score(x, a, words) == Score(x, b, words)
  {
    if words != [] {
      ScoreIgnoresMapOrder(x, a, b, words[..|words| - 1]);
      WordScoreIgnoresMapOrder(x, a, b, words[|words| - 1]);
    }
  }

  /** Compact results leave the schema out. */
  function Compact(hits: seq<Hit>): (r: seq<Hit>)
    ensures |r| == |hits| && forall i :: 0 <= i < |hits| ==> r[i] == Hit(hits[i].info.(schema := Null), hits[i].score)
  {
    seq(|hits|, i requires 0 <= i < |hits| => Hit(hits[i].info.(schema := Null), hits[i].score))
  }

  lemma {:induction false} InsertCompact(ranked: seq<Hit>, h: Hit)
    ensures Compact(Insert(ranked, h)) == Insert(Compact(ranked), Hit(h.info.(schema := Null), h.score))
  {
    if ranked != [] {
      var n := |ranked| - 1;
      InsertCompact(ranked[..n], h);
      assert Compact(ranked)[..n] == Compact(ranked[..n]);
    }
  }

  lemma {:induction false} RankedCompact(hits: seq<Hit>)
    ensures Compact(Ranked(hits)) == Ranked(Compact(hits))
  {
    if hits != [] {
      var n := |hits| - 1;
      RankedCompact(hits[..n]);
      InsertCompact(Ranked(hits[..n]), hits[n]);
      assert Compact(hits)[..n] == Compact(hits[..n]);
    }
  }

  lemma {:induction false} HitsIgnoreMapOrder(x: Text, a: seq<ToolInfo>, b: seq<ToolInfo>, words: seq<string>)
    requires SaneText(x) && (forall w :: w in words ==> Word(x, w))
    requires |a| == |b| && forall i :: 0 <= i < |a| ==> Alike(a[i], b[i])
    ensures Compact(Hits(x, a, words)) == Compact(Hits(x, b, words))
  {
    if a != [] {
      var n := |a| - 1;
      HitsIgnoreMapOrder(x, a[..n], b[..n], words);
      ScoreIgnoresMapOrder(x, a[n], b[n], words);
    }
  }

  /** The compact answer does not depend on the order in which maps are visited. */
  lemma SearchIgnoresMapOrder(x: Text, a: seq<ToolInfo>, b: seq<ToolInfo>, query: string, limit: nat)
    requires SaneText(x) && |a| == |b| && forall i :: 0 <= i < |a| ==> Alike(a[i], b[i])
    ensures var words := Fields(x, Lower(x, query));
            Compact(Found(x, a, words, limit)) == Compact(Found(x, b, words, limit))
  {
    var words := Fields(x, Lower(x, query));
    var ha, hb := Hits(x, a, words), Hits(x, b, words);
    HitsIgnoreMapOrder(x, a, b, words);
    RankedCompact(ha);
    RankedCompact(hb);
    var ra, rb := Ranked(ha), Ranked(hb);
    assert |ra| == |rb|;
    assert Compact(Take(ra, limit)) == Take(Compact(ra), limit);
    assert Compact(Take(rb, limit)) == Take(Compact(rb), limit);
  }
}
