/** Prefixed tool names: `server__tool`, and the cut that takes them apart again. */
module Naming {

  import opened Prelude

  const SEPARATOR: string := "__"

  function Prefixed(server: string, tool: string): string {
    server + SEPARATOR + tool
  }

  /** The supervisor key of a server within a namespace. */
  function UpstreamId(namespace: string, server: string): string {
    namespace + "/" + server
  }

  /** A separator starts at position `i` of `s`. */
  predicate SepAt(s: string, i: nat) {
    i + 2 <= |s| && s[i] == '_' && s[i + 1] == '_'
  }

  /** The position of the first separator at or after `from`, or None. */
  function FirstSep(s: string, from: nat): (r: Option<nat>)
    requires from <= |s|
    ensures r.None? ==> forall i :: from <= i < |s| ==> !SepAt(s, i)
    ensures r.Some? ==> from <= r.value && SepAt(s, r.value) && forall i :: from <= i < r.value ==> !SepAt(s, i)
    decreases |s| - from
  {
    if from == |s| then None
    else if SepAt(s, from) then Some(from)
    else FirstSep(s, from + 1)
  }

  /** Splits a name at its first separator. */
  function Cut(s: string): Option<(string, string)> {
    match FirstSep(s, 0)
    case None => None
    case Some(i) => Some((s[..i], s[i + 2..]))
  }

  /** Lower-case letters, digits, `_` and `-`, not starting with `_` or `-`. */
  predicate NameRule(s: string) {
    && s != ""
    && AlphaNum(s[0])
    && forall i :: 0 <= i < |s| ==> AlphaNum(s[i]) || s[i] == '_' || s[i] == '-'
  }

  predicate AlphaNum(c: char) {
    'a' <= c <= 'z' || '0' <= c <= '9'
  }

  /** No separator can start inside the server part of a prefixed name. */
  predicate Unambiguous(server: string) {
    && (forall i :: 0 <= i < |server| ==> !SepAt(server, i))
    && (server != "" ==> server[|server| - 1] != '_')
  }

  lemma CutIsPrefixed(n: string)
    requires Cut(n).Some?
    ensures n == Prefixed(Cut(n).value.0, Cut(n).value.1)
  {
    var i := FirstSep(n, 0).value;
    assert n == n[..i] + n[i..i + 2] + n[i + 2..];
    assert n[i..i + 2] == SEPARATOR;
  }

  /** `server` and `tool` are what stands before and after the first separator. */
  ghost predicate CutsInto(name: string, server: string, tool: string) {
    && name == server + "__" + tool
    && forall i :: 0 <= i < |server| ==> !(name[i] == '_' && name[i + 1] == '_')
  }

  lemma CutIff(name: string, server: string, tool: string)
    ensures Cut(name) == Some((server, tool)) <==> CutsInto(name, server, tool)
  {
    if Cut(name).Some? {
      CutIsPrefixed(name);
      var i := FirstSep(name, 0).value;
      forall k | 0 <= k < i ensures !(name[k] == '_' && name[k + 1] == '_') {
        assert !SepAt(name, k);
      }
    }
    if CutsInto(name, server, tool) {
      assert SepAt(name, |server|);
      assert forall i :: 0 <= i < |server| ==> !SepAt(name, i);
      assert FirstSep(name, 0) == Some(|server|);
      assert name[..|server|] == server && name[|server| + 2..] == tool;
    }
  }

  /** Cutting a prefixed name gives back its two parts exactly when the server
      name holds no separator and does not end in an underscore. */
  lemma CutInvertsPrefix(server: string, tool: string)
    ensures Cut(Prefixed(server, tool)) == Some((server, tool)) <==> Unambiguous(server)
  {
    var s := Prefixed(server, tool);
    var n := |server|;
    assert SepAt(s, n);
    assert s[..n] == server && s[n + 2..] == tool;
    if Unambiguous(server) {
      forall i | 0 <= i < n ensures !SepAt(s, i) {
        assert !SepAt(server, i);
      }
    } else if exists i :: 0 <= i < n && SepAt(server, i) {
      var i :| 0 <= i < n && SepAt(server, i);
      assert SepAt(s, i);
    } else {
      assert SepAt(s, n - 1);
    }
  }

  /** Two servers can publish the same name exactly when one name with its
      separator is a prefix of the other. */
  lemma CollisionIff(s1: string, s2: string)
    ensures (exists t1, t2 :: Prefixed(s1, t1) == Prefixed(s2, t2))
       <==> (s1 + SEPARATOR <= s2 + SEPARATOR || s2 + SEPARATOR <= s1 + SEPARATOR)
  {
    var p1, p2 := s1 + SEPARATOR, s2 + SEPARATOR;
    if t1, t2 :| Prefixed(s1, t1) == Prefixed(s2, t2) {
      var whole := Prefixed(s1, t1);
      assert whole[..|p1|] == p1 && whole[..|p2|] == p2;
      if |p1| <= |p2| {
        assert p2[..|p1|] == whole[..|p1|];
      } else {
        assert p1[..|p2|] == whole[..|p2|];
      }
    }
    if p1 <= p2 {
      assert Prefixed(s1, p2[|p1|..]) == Prefixed(s2, "");
    }
    if p2 <= p1 {
      assert Prefixed(s1, "") == Prefixed(s2, p1[|p2|..]);
    }
  }

  /** Distinct unambiguous servers never publish the same name, and one server
      publishes two tools under one name only if the tools are named alike. */
  lemma PrefixInjective(s1: string, t1: string, s2: string, t2: string)
    requires Unambiguous(s1) && Unambiguous(s2)
    requires Prefixed(s1, t1) == Prefixed(s2, t2)
    ensures s1 == s2 && t1 == t2
  {
    CutInvertsPrefix(s1, t1);
    CutInvertsPrefix(s2, t2);
  }

  /** Every accepted but ambiguous server name collides with another accepted
      name, so the hypothesis of `PrefixInjective` cannot be weakened. */
  lemma AmbiguousNamesCollide(s: string)
    requires NameRule(s) && !Unambiguous(s)
    ensures exists s', t, t' :: NameRule(s') && s' != s && Prefixed(s, t) == Prefixed(s', t')
  {
    if exists i :: 0 <= i < |s| && SepAt(s, i) {
      var i :| 0 <= i < |s| && SepAt(s, i);
      var s' := s[..i];
      assert s'[0] == s[0] && NameRule(s') && s' != s;
      assert Prefixed(s, "") == Prefixed(s', s[i + 2..] + SEPARATOR);
    } else {
      var s' := s[..|s| - 1];
      assert s'[0] == s[0] && NameRule(s') && s' != s;
      assert Prefixed(s, "") == Prefixed(s', "_");
    }
  }

  /** The design's claim that prefixing rules out collisions is false: both
      names pass the name rule and both can publish `a___x`. */
  lemma PrefixingDoesNotRuleOutCollisions()
    ensures NameRule("a") && NameRule("a_")
    ensures Prefixed("a", "_x") == Prefixed("a_", "x") == "a___x"
  {
  }

  /** Upstream IDs of accepted namespaces determine the namespace and the server. */
  lemma UpstreamIdInjective(n1: string, s1: string, n2: string, s2: string)
    requires NameRule(n1) && NameRule(n2)
    requires UpstreamId(n1, s1) == UpstreamId(n2, s2)
    ensures n1 == n2 && s1 == s2
  {
    var u := UpstreamId(n1, s1);
    assert u[|n1|] == '/' && u[|n2|] == '/';
    assert forall i :: 0 <= i < |n1| ==> u[i] == n1[i] && u[i] != '/';
    assert forall i :: 0 <= i < |n2| ==> u[i] == n2[i] && u[i] != '/';
    assert n1 == u[..|n1|] && n2 == u[..|n2|];
    assert s1 == u[|n1| + 1..] && s2 == u[|n2| + 1..];
  }
}
