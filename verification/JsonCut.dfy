/** A text that was cut and marked with an ellipsis is not JSON any more. */
module JsonCut {

  import opened Prelude
  import opened Json
  import opened JsonText

  const ELLIPSIS: char := '\U{2026}'

  predicate Marked(s: string) {
    s != "" && s[|s| - 1] == ELLIPSIS
  }

  /** Reading leaves the mark in what follows, if it reads anything at all. */
  predicate KeepsMark<T>(s: string, read: Option<(T, string)>) {
    Marked(s) && read.Some? ==> Marked(read.value.1)
  }

  /** Passing over characters other than the mark leaves it. */
  lemma Passed(s: string, n: nat)
    requires Marked(s) && n <= |s| && forall i :: 0 <= i < n ==> s[i] != ELLIPSIS
    ensures Marked(s[n..])
  {
  }

  lemma {:induction false} SpaceKeeps(s: string)
    requires Marked(s)
    ensures Marked(SkipSpace(s))
  {
    if Space(s[0]) {
      Passed(s, 1);
      SpaceKeeps(s[1..]);
    }
  }

  lemma EscapeKeeps(s: string)
    ensures KeepsMark(s, Escape(s))
  {
  }

  lemma {:induction false} StringKeeps(s: string)
    ensures KeepsMark(s, ReadString(s))
    decreases |s|
  {
    if Marked(s) && s[0] == '\\' {
      Passed(s, 1);
      EscapeKeeps(s[1..]);
      if Escape(s[1..]).Some? {
        StringKeeps(Escape(s[1..]).value.1);
      }
    } else if Marked(s) && |s| > 1 {
      StringKeeps(s[1..]);
    }
  }

  lemma LiteralKeeps(s: string, word: string, v: Json)
    requires word != "" && forall i :: 0 <= i < |word| ==> word[i] != ELLIPSIS
    ensures KeepsMark(s, Literal(s, word, v))
  {
    if Marked(s) && word <= s {
      Passed(s, |word|);
    }
  }

  lemma {:induction false} ValueKeeps(fits: string -> bool, s: string, depth: nat)
    ensures KeepsMark(s, ReadValue(fits, s, depth))
    decreases |s|, 1
  {
    if Marked(s) {
      SpaceKeeps(s);
      var t := SkipSpace(s);
      if t[0] == '"' {
        Passed(t, 1);
        StringKeeps(t[1..]);
      } else if t[0] == '[' || t[0] == '{' {
        Passed(t, 1);
        SpaceKeeps(t[1..]);
        NestKeeps(fits, t, depth);
      } else if t[0] == 'n' {
        LiteralKeeps(t, "null", Null);
      } else if t[0] == 't' {
        LiteralKeeps(t, "true", Bool(true));
      } else if t[0] == 'f' {
        LiteralKeeps(t, "false", Bool(false));
      } else {
        Passed(t, NumRun(t));
      }
    }
  }

  lemma {:induction false} NestKeeps(fits: string -> bool, t: string, depth: nat)
    requires t != "" && (t[0] == '[' || t[0] == '{') && Marked(SkipSpace(t[1..]))
    ensures KeepsMark(t, ReadValue(fits, t, depth))
    decreases |t|, 0
  {
    var u := SkipSpace(t[1..]);
    if u[0] == ']' || u[0] == '}' {
      Passed(u, 1);
    }
    if depth > 0 && t[0] == '[' {
      ItemsKeep(fits, u, depth - 1);
    } else if depth > 0 {
      MembersKeep(fits, u, depth - 1, []);
    }
  }

  lemma {:induction false} ItemsKeep(fits: string -> bool, s: string, depth: nat)
    ensures KeepsMark(s, ReadItems(fits, s, depth))
    decreases |s|, 2
  {
    ValueKeeps(fits, s, depth);
    match ReadValue(fits, s, depth)
    case None =>
    case Some((v, rest)) =>
      if Marked(s) {
        SpaceKeeps(rest);
        var t := SkipSpace(rest);
        if t[0] == ']' || t[0] == ',' {
          Passed(t, 1);
          ItemsKeep(fits, t[1..], depth);
        }
      }
  }

  lemma {:induction false} MembersKeep(fits: string -> bool, s: string, depth: nat, before: seq<(string, Json)>)
    ensures KeepsMark(s, ReadMembers(fits, s, depth, before))
    decreases |s|, 2
  {
    if Marked(s) && ReadMembers(fits, s, depth, before).Some? {
      SpaceKeeps(s);
      var t := SkipSpace(s);
      Passed(t, 1);
      StringKeeps(t[1..]);
      var (k, afterKey) := ReadString(t[1..]).value;
      SpaceKeeps(afterKey);
      var u := SkipSpace(afterKey);
      Passed(u, 1);
      ValueKeeps(fits, u[1..], depth);
      var (v, rest) := ReadValue(fits, u[1..], depth).value;
      SpaceKeeps(rest);
      var w := SkipSpace(rest);
      Passed(w, 1);
      if w[0] == ',' {
        MembersKeep(fits, w[1..], depth, Put(before, k, v));
      }
    }
  }

  /** No text that ends in an ellipsis is JSON: outside a string there is none, and
      a string does not end in one. */
  lemma MarkedIsNotJson(fits: string -> bool, s: string)
    requires Marked(s)
    ensures Parse(fits, s).None?
  {
    ValueKeeps(fits, s, MAX_DEPTH);
    match ReadValue(fits, s, MAX_DEPTH)
    case None =>
    case Some((v, rest)) => SpaceKeeps(rest);
  }
}
