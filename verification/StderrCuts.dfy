/** Which streams the stderr splitter logs alike however they are cut into writes,
    where white space is a matter of single bytes. */
module StderrCuts {

  import opened Prelude
  import opened Stderr

  predicate AllSpace(space: byte -> bool, l: Bytes) {
    forall i :: 0 <= i < |l| ==> space(l[i])
  }

  function Bytewise(space: byte -> bool): Bytes -> bool {
    (l: Bytes) => AllSpace(space, l)
  }

  /** The part of a line that one record holds. */
  function Cap(t: Bytes): Bytes {
    if |t| > 4096 then t[..4096] else t
  }

  // ------------------------------------------------------------------- trimming

  lemma {:induction false} TrimEnds(l: Bytes)
    ensures var t := TrimRightCR(l);
            t == l[..|t|] && (t != [] ==> t[|t| - 1] != 13) && forall i :: |t| <= i < |l| ==> l[i] == 13
  {
    if l != [] && l[|l| - 1] == CR {
      TrimEnds(l[..|l| - 1]);
    }
  }

  lemma TrimIs(l: Bytes, j: nat)
    requires j <= |l| && (j > 0 ==> l[j - 1] != CR) && forall i :: j <= i < |l| ==> l[i] == CR
    ensures TrimRightCR(l) == l[..j]
  {
    TrimEnds(l);
    var t := TrimRightCR(l);
    assert t != [] ==> t[|t| - 1] == l[|t| - 1];
  }

  lemma TrimGrows(l: Bytes, p: nat)
    requires p <= |l|
    ensures |TrimRightCR(l[..p])| <= |TrimRightCR(l)|
  {
    TrimEnds(l);
    TrimEnds(l[..p]);
    var j := |TrimRightCR(l[..p])|;
    assert j > 0 ==> l[j - 1] != CR;
  }

  /** One record for a line with text, none for one without. */
  lemma RecordsAre(space: byte -> bool, l: Bytes)
    requires space(CR)
    ensures Records(Bytewise(space), l) == if AllSpace(space, l) then [] else [Cap(TrimRightCR(l))]
  {
    TrimEnds(l);
    var t := TrimRightCR(l);
    assert AllSpace(space, t) ==> forall i :: 0 <= i < |l| ==> space(l[i]) by {
      assert forall i :: 0 <= i < |t| ==> t[i] == l[i];
    }
  }

  // ----------------------------------------------------------------- calm lines

  /** A line no cut can show in: short; blank; or with text among its first 4097
      bytes, none after them, and a record those bytes settle. */
  predicate Calm(space: byte -> bool, l: Bytes) {
    || |l| <= 4096
    || AllSpace(space, l)
    || var head := l[..4097];
       && !AllSpace(space, head) && AllSpace(space, l[4097..])
       && (|TrimRightCR(head)| >= 4096 || TrimRightCR(l) == TrimRightCR(head))
  }

  /** What a flush within a calm line logs is what the whole line logs, and nothing
      is left to log. */
  lemma CalmCut(space: byte -> bool, l: Bytes, p: nat)
    requires space(CR) && Calm(space, l) && MAX_LINE < p <= |l|
    ensures Records(Bytewise(space), l[..p]) == Records(Bytewise(space), l)
    ensures AllSpace(space, l[p..])
  {
    RecordsAre(space, l);
    RecordsAre(space, l[..p]);
    if !AllSpace(space, l) {
      var head := l[..MAX_LINE + 1];
      assert l[..p][..MAX_LINE + 1] == head;
      HeadHasText(space, l, p);
      SameCap(l, p);
    }
  }

  lemma HeadHasText(space: byte -> bool, l: Bytes, p: nat)
    requires MAX_LINE < p <= |l| && !AllSpace(space, l[..MAX_LINE + 1]) && AllSpace(space, l[MAX_LINE + 1..])
    ensures !AllSpace(space, l[..p]) && AllSpace(space, l[p..])
  {
    var i :| 0 <= i <= MAX_LINE && !space(l[..MAX_LINE + 1][i]);
    assert l[..p][i] == l[..MAX_LINE + 1][i];
    assert forall k :: 0 <= k < |l| - p ==> l[p..][k] == l[MAX_LINE + 1..][p + k - MAX_LINE - 1];
  }

  lemma SameCap(l: Bytes, p: nat)
    requires MAX_LINE < p <= |l|
    requires var head := l[..MAX_LINE + 1];
             |TrimRightCR(head)| >= MAX_LINE || TrimRightCR(l) == TrimRightCR(head)
    ensures Cap(TrimRightCR(l[..p])) == Cap(TrimRightCR(l))
  {
    var head := l[..MAX_LINE + 1];
    assert l[..p][..MAX_LINE + 1] == head;
    if |TrimRightCR(head)| >= MAX_LINE {
      TrimGrows(l, MAX_LINE + 1);
      TrimGrows(l[..p], MAX_LINE + 1);
      assert Cap(TrimRightCR(l)) == l[..MAX_LINE] == Cap(TrimRightCR(l[..p]));
    } else {
      var j := |TrimRightCR(head)|;
      TrimEnds(l);
      TrimIs(l[..p], j);
    }
  }

  lemma CalmPrefix(space: byte -> bool, l: Bytes, p: nat)
    requires Calm(space, l) && p <= |l|
    ensures Calm(space, l[..p])
  {
    if p > MAX_LINE && !AllSpace(space, l) {
      var head, x := l[..MAX_LINE + 1], l[..p];
      assert x[..MAX_LINE + 1] == head;
      assert x[MAX_LINE + 1..] == l[MAX_LINE + 1..][..p - MAX_LINE - 1];
      if |TrimRightCR(head)| < MAX_LINE {
        TrimEnds(l);
        TrimIs(x, |TrimRightCR(head)|);
      }
    }
  }

  ghost predicate CalmStream(space: byte -> bool, s: Bytes) {
    Calm(space, Rest(s)) && forall l :: l in Lines(s) ==> Calm(space, l)
  }

  lemma CalmStreamPrefix(space: byte -> bool, a: Bytes, b: Bytes)
    requires CalmStream(space, a + b)
    ensures CalmStream(space, a)
  {
    SplitConcat(a, b);
    SplitIsLossless(a);
    var r := Rest(a);
    if NL in b {
      FirstLine(r, b);
      assert (r + b[..FirstNL(b)])[..|r|] == r;
      assert Lines(a + b)[|Lines(a)|] == r + b[..FirstNL(b)];
      CalmPrefix(space, r + b[..FirstNL(b)], |r|);
    } else {
      NoLine(r, b);
      assert (r + b)[..|r|] == r;
      CalmPrefix(space, r + b, |r|);
    }
    forall l | l in Lines(a) ensures Calm(space, l) {
      assert l in Lines(a + b);
    }
  }

  /** An unfinished line and what completes it. */
  lemma FirstLine(r: Bytes, b: Bytes)
    requires NL !in r && NL in b
    ensures var i := FirstNL(b);
            Lines(r + b) == [r + b[..i]] + Lines(b[i + 1..]) && Rest(r + b) == Rest(b[i + 1..])
  {
    var i := FirstNL(b);
    SeparatorBehind(r, b, i);
    SlicesBehind(r, b, i);
    SplitsAt(r + b, |r| + i, r + b[..i], b[i + 1..]);
  }

  lemma SplitsAt(s: Bytes, n: nat, line: Bytes, rest: Bytes)
    requires n < |s| && s[n] == NL && forall k :: 0 <= k < n ==> s[k] != NL
    requires s[..n] == line && s[n + 1..] == rest
    ensures Lines(s) == [line] + Lines(rest) && Rest(s) == Rest(rest)
  {
    CutAt(s, n);
  }

  lemma SeparatorBehind(r: Bytes, b: Bytes, i: nat)
    requires NL !in r && i < |b| && b[i] == NL && forall k :: 0 <= k < i ==> b[k] != NL
    ensures (r + b)[|r| + i] == NL && forall k :: 0 <= k < |r| + i ==> (r + b)[k] != NL
  {
    forall k | 0 <= k < |r| + i ensures (r + b)[k] != NL {
      if k < |r| {
        assert r[k] in r;
      }
    }
  }

  lemma SlicesBehind(r: Bytes, b: Bytes, i: nat)
    requires i < |b|
    ensures (r + b)[..|r| + i] == r + b[..i] && (r + b)[|r| + i + 1..] == b[i + 1..]
  {
  }

  lemma NoLine(r: Bytes, b: Bytes)
    requires NL !in r && NL !in b
    ensures Lines(r + b) == [] && Rest(r + b) == r + b
  {
  }

  // -------------------------------------------------------- calm streams in pieces

  /** After the stream `a`: `flushed` is what has been flushed of its unfinished line. */
  ghost predicate StateAfter(space: byte -> bool, a: Bytes, log: Log, flushed: Bytes) {
    && Rest(a) == flushed + log.buf && (flushed == [] || |flushed| > MAX_LINE) && |log.buf| <= MAX_LINE
    && log.out == AllRecords(Bytewise(space), Lines(a)) +
                  if flushed == [] then [] else Records(Bytewise(space), Rest(a))
  }

  /** The rest of a calm line that has been flushed adds nothing. */
  lemma Flushed(space: byte -> bool, flushed: Bytes, buf: Bytes, more: Bytes)
    requires space(CR) && |flushed| > MAX_LINE && Calm(space, flushed + buf + more)
    ensures Records(Bytewise(space), buf + more) == []
    ensures Records(Bytewise(space), flushed + buf + more) == Records(Bytewise(space), flushed + buf)
  {
    var line := flushed + buf + more;
    CalmCut(space, line, |flushed|);
    CalmCut(space, line, |flushed + buf|);
    assert line[|flushed|..] == buf + more && line[..|flushed + buf|] == flushed + buf;
    RecordsAre(space, buf + more);
  }

  lemma UnfinishedStep(space: byte -> bool, a: Bytes, log: Log, flushed: Bytes, b: Bytes) returns (flushed': Bytes)
    requires space(CR) && StateAfter(space, a, log, flushed) && CalmStream(space, a + b) && NL !in b
    ensures StateAfter(space, a + b, Wrote(Bytewise(space), log, b), flushed')
  {
    SplitConcat(a, b);
    SplitIsLossless(a);
    NoLineIn(flushed, log.buf);
    NoLine(Rest(a), b);
    NoLine(log.buf, b);
    Settled(Lines(a), Rest(a));
    AppendAssoc(flushed, log.buf, b);
    flushed' := LongerLine(space, AllRecords(Bytewise(space), Lines(a)), log, flushed, b);
  }

  /** More of an unfinished line arrives. */
  lemma LongerLine(space: byte -> bool, before: seq<Bytes>, log: Log, flushed: Bytes, b: Bytes) returns (flushed': Bytes)
    requires space(CR) && (flushed == [] || |flushed| > MAX_LINE) && Calm(space, flushed + log.buf + b)
    requires Lines(log.buf + b) == [] && Rest(log.buf + b) == log.buf + b
    requires log.out == before + if flushed == [] then [] else Records(Bytewise(space), flushed + log.buf)
    ensures var log' := Wrote(Bytewise(space), log, b);
            && flushed + log.buf + b == flushed' + log'.buf && (flushed' == [] || |flushed'| > MAX_LINE) && |log'.buf| <= MAX_LINE
            && log'.out == before + if flushed' == [] then [] else Records(Bytewise(space), flushed + log.buf + b)
  {
    var f, line := Bytewise(space), flushed + log.buf + b;
    Settled(log.out, line);
    Settled(before, log.buf + b);
    AppendAssoc(flushed, log.buf, b);
    if flushed != [] {
      Flushed(space, flushed, log.buf, b);
    }
    flushed' := if |log.buf + b| > MAX_LINE then line else flushed;
  }

  lemma FinishedStep(space: byte -> bool, a: Bytes, log: Log, flushed: Bytes, b: Bytes) returns (flushed': Bytes)
    requires space(CR) && StateAfter(space, a, log, flushed) && CalmStream(space, a + b) && NL in b
    ensures StateAfter(space, a + b, Wrote(Bytewise(space), log, b), flushed')
  {
    var f := Bytewise(space);
    LinesFinished(space, a, log, flushed, b);
    flushed' := if |Rest(a + b)| > MAX_LINE then Rest(a + b) else [];
    Settled(AllRecords(f, Lines(a + b)), Rest(a + b));
  }

  lemma Settled(out: seq<Bytes>, rest: Bytes)
    ensures out + [] == out && rest + [] == rest && [] + rest == rest
  {
  }

  /** The lines a write completes are logged, with what was flushed before, as they
      are in the whole stream. */
  lemma LinesFinished(space: byte -> bool, a: Bytes, log: Log, flushed: Bytes, b: Bytes)
    requires space(CR) && StateAfter(space, a, log, flushed) && CalmStream(space, a + b) && NL in b
    ensures log.out + AllRecords(Bytewise(space), Lines(log.buf + b)) == AllRecords(Bytewise(space), Lines(a + b))
    ensures Rest(log.buf + b) == Rest(a + b)
  {
    var end, after := SplitBoth(a, flushed, log.buf, b);
    LineOf(Lines(a), Rest(a) + end, after);
    LinesTally(space, Lines(a), log, flushed, end, after);
  }

  /** The line a write completes, in the buffer and in the stream. */
  lemma SplitBoth(a: Bytes, flushed: Bytes, buf: Bytes, b: Bytes) returns (end: Bytes, after: seq<Bytes>)
    requires Rest(a) == flushed + buf && NL in b
    ensures Lines(a + b) == Lines(a) + ([Rest(a) + end] + after) && Lines(buf + b) == [buf + end] + after
    ensures Rest(buf + b) == Rest(a + b)
  {
    SplitConcat(a, b);
    SplitIsLossless(a);
    NoLineIn(flushed, buf);
    FirstLine(Rest(a), b);
    FirstLine(buf, b);
    end, after := b[..FirstNL(b)], Lines(b[FirstNL(b) + 1..]);
  }

  lemma LinesTally(space: byte -> bool, before: seq<Bytes>, log: Log, flushed: Bytes, end: Bytes, after: seq<Bytes>)
    requires space(CR) && (flushed == [] || |flushed| > MAX_LINE) && Calm(space, flushed + log.buf + end)
    requires log.out == AllRecords(Bytewise(space), before) +
                        if flushed == [] then [] else Records(Bytewise(space), flushed + log.buf)
    ensures log.out + AllRecords(Bytewise(space), [log.buf + end] + after)
            == AllRecords(Bytewise(space), before + ([flushed + log.buf + end] + after))
  {
    var f := Bytewise(space);
    LineRecords(space, flushed, log.buf, end);
    LoggedAlike(f, before, if flushed == [] then [] else Records(f, flushed + log.buf), log.buf + end, flushed + log.buf + end, after);
  }

  lemma LineOf(before: seq<Bytes>, line: Bytes, after: seq<Bytes>)
    ensures line in before + ([line] + after)
  {
    assert (before + ([line] + after))[|before|] == line;
  }

  lemma LoggedAlike(f: Bytes -> bool, before: seq<Bytes>, owed: seq<Bytes>, end: Bytes, line: Bytes, after: seq<Bytes>)
    requires owed + Records(f, end) == Records(f, line)
    ensures AllRecords(f, before) + owed + AllRecords(f, [end] + after) == AllRecords(f, before + ([line] + after))
  {
    OneMore(f, end, after);
    LinesLogged(f, before, line, after);
    Regroup(AllRecords(f, before), owed, Records(f, end), AllRecords(f, after));
  }

  lemma NoLineIn(flushed: Bytes, buf: Bytes)
    requires NL !in flushed + buf
    ensures NL !in buf
  {
    assert forall i :: 0 <= i < |buf| ==> (flushed + buf)[|flushed| + i] == buf[i];
  }

  lemma OneMore(f: Bytes -> bool, line: Bytes, after: seq<Bytes>)
    ensures AllRecords(f, [line] + after) == Records(f, line) + AllRecords(f, after)
  {
    assert ([line] + after)[1..] == after;
  }

  /** What was flushed of a line and what its end logs are what the line logs. */
  lemma LineRecords(space: byte -> bool, flushed: Bytes, buf: Bytes, end: Bytes)
    requires space(CR) && (flushed == [] || |flushed| > MAX_LINE) && Calm(space, flushed + buf + end)
    ensures (if flushed == [] then [] else Records(Bytewise(space), flushed + buf)) + Records(Bytewise(space), buf + end)
            == Records(Bytewise(space), flushed + buf + end)
  {
    if flushed == [] {
      assert flushed + buf + end == buf + end;
    } else {
      Flushed(space, flushed, buf, end);
    }
  }

  lemma LinesLogged(f: Bytes -> bool, before: seq<Bytes>, line: Bytes, after: seq<Bytes>)
    ensures AllRecords(f, before + ([line] + after)) == AllRecords(f, before) + (Records(f, line) + AllRecords(f, after))
  {
    RecordsConcat(f, before, [line] + after);
    OneMore(f, line, after);
  }

  lemma Regroup<T>(a: seq<T>, b: seq<T>, c: seq<T>, d: seq<T>)
    ensures a + b + (c + d) == a + ((b + c) + d)
  {
  }

  /** However a calm stream is cut, its state is that of its lines. */
  lemma {:induction false} CalmWrites(space: byte -> bool, chunks: seq<Bytes>) returns (flushed: Bytes)
    requires space(CR) && CalmStream(space, Concat(chunks))
    ensures StateAfter(space, Concat(chunks), AfterWrites(Bytewise(space), chunks), flushed)
  {
    if chunks == [] {
      flushed := [];
    } else {
      var n := |chunks| - 1;
      var a, b := Concat(chunks[..n]), chunks[n];
      CalmStreamPrefix(space, a, b);
      flushed := CalmWrites(space, chunks[..n]);
      var log := AfterWrites(Bytewise(space), chunks[..n]);
      if NL in b {
        flushed := FinishedStep(space, a, log, flushed, b);
      } else {
        flushed := UnfinishedStep(space, a, log, flushed, b);
      }
    }
  }

  // ------------------------------------------------------------ cuts that show

  lemma FirstText(space: byte -> bool, l: Bytes) returns (i: nat)
    requires !AllSpace(space, l)
    ensures i < |l| && !space(l[i]) && forall k :: 0 <= k < i ==> space(l[k])
  {
    i := 0;
    while space(l[i])
      invariant i < |l| && forall k :: 0 <= k < i ==> space(l[k])
      invariant !forall k :: i <= k < |l| ==> space(l[k])
      decreases |l| - i
    {
      i := i + 1;
    }
  }

  /** A cut that shows in a line that is not calm. */
  lemma CutThatShows(space: byte -> bool, l: Bytes) returns (p: nat)
    requires space(CR) && !Calm(space, l)
    ensures MAX_LINE < p <= |l|
    ensures var f := Bytewise(space); Records(f, l[..p]) + Records(f, l[p..]) != Records(f, l)
  {
    var head := l[..MAX_LINE + 1];
    RecordsAre(space, l);
    if AllSpace(space, head) {
      p := FirstText(space, l);
      assert forall k :: 0 <= k <= MAX_LINE ==> head[k] == l[k] && space(l[k]);
      LateText(space, l, p);
    } else {
      p := MAX_LINE + 1;
      var f := Bytewise(space);
      RecordsAre(space, head);
      RecordsAre(space, l[p..]);
      if AllSpace(space, l[p..]) {
        TrimGrows(l, p);
        ShorterTrim(l, p);
        var one, other: seq<Bytes> := [Cap(TrimRightCR(head))], [Cap(TrimRightCR(l))];
        assert one + [] == one && one[0] != other[0];
      } else {
        assert |Records(f, head) + Records(f, l[p..])| == 2;
      }
    }
  }

  /** Text that starts late is shown cut off its blanks, or with them. */
  lemma LateText(space: byte -> bool, l: Bytes, p: nat)
    requires space(CR) && MAX_LINE < p < |l| && !space(l[p]) && forall k :: 0 <= k < p ==> space(l[k])
    ensures var f := Bytewise(space); Records(f, l[..p]) + Records(f, l[p..]) != Records(f, l)
  {
    RecordsAre(space, l);
    RecordsAre(space, l[..p]);
    RecordsAre(space, l[p..]);
    assert l[p..][0] == l[p];
    TrimKeepsText(space, l[p..], 0);
    TrimKeepsText(space, l, p);
    var whole, late := Cap(TrimRightCR(l)), Cap(TrimRightCR(l[p..]));
    assert late[0] == l[p] && whole[0] == l[0];
    assert AllSpace(space, l[..p]) && !space(l[p..][0]);
    var one, other: seq<Bytes> := [late], [whole];
    assert [] + one == one && one[0] != other[0];
  }

  lemma TrimKeepsText(space: byte -> bool, l: Bytes, i: nat)
    requires space(CR) && i < |l| && !space(l[i])
    ensures i < |TrimRightCR(l)|
  {
    TrimEnds(l);
  }

  lemma ShorterTrim(l: Bytes, p: nat)
    requires p <= |l| && |TrimRightCR(l[..p])| < MAX_LINE && TrimRightCR(l) != TrimRightCR(l[..p])
    requires |TrimRightCR(l[..p])| <= |TrimRightCR(l)|
    ensures Cap(TrimRightCR(l[..p])) != Cap(TrimRightCR(l))
  {
    var t, h := TrimRightCR(l), TrimRightCR(l[..p]);
    assert |t| == |h| ==> t == h;
  }

  /** The stream is complete lines, then `l`, then `v`. */
  ghost predicate StandsBetween(s: Bytes, u: Bytes, l: Bytes, v: Bytes) {
    && s == u + (l + ([NL] + v)) && NL !in l && Rest(u) == []
    && Lines(s) == Lines(u) + ([l] + Lines(v)) && Rest(s) == Rest(v)
  }

  /** Where a line stands in a stream. */
  lemma {:induction false} Locate(s: Bytes, l: Bytes) returns (u: Bytes, v: Bytes)
    requires l in Lines(s)
    ensures StandsBetween(s, u, l, v)
    decreases |s|
  {
    var i := FirstNL(s);
    CutAt(s, i);
    if s[..i] == l {
      u, v := [], s[i + 1..];
      Pieces(s, i);
      AppendAssoc(l, [NL], v);
    } else {
      var w;
      w, v := Locate(s[i + 1..], l);
      u := s[..i] + ([NL] + w);
      OneLineUp(s, i, w, l, v);
    }
  }

  lemma OneLineUp(s: Bytes, i: nat, w: Bytes, l: Bytes, v: Bytes)
    requires NL in s && i == FirstNL(s) && StandsBetween(s[i + 1..], w, l, v)
    ensures StandsBetween(s, s[..i] + ([NL] + w), l, v)
  {
    var line, u := s[..i], s[..i] + ([NL] + w);
    CutAt(s, i);
    Pieces(s, i);
    FirstLineOf(line, w);
    AppendAssoc(line, [NL] + w, l + ([NL] + v));
    AppendAssoc([NL], w, l + ([NL] + v));
    AppendAssoc(line, [NL], s[i + 1..]);
    AppendAssoc([line], Lines(w), [l] + Lines(v));
  }

  /** A first write up to a cut within a line, behind complete lines. */
  lemma FlushingWrite(f: Bytes -> bool, u: Bytes, x: Bytes)
    requires Rest(u) == [] && NL !in x && |x| > MAX_LINE
    ensures Wrote(f, EMPTY, u + x) == Log([], AllRecords(f, Lines(u)) + Records(f, x))
  {
    SplitConcat(u, x);
    NoLine([], x);
    assert [] + x == x && [] + (u + x) == u + x && Lines(u) + [] == Lines(u);
    assert [] + AllRecords(f, Lines(u)) == AllRecords(f, Lines(u));
  }

  lemma TwoChunks(f: Bytes -> bool, a: Bytes, b: Bytes)
    ensures Concat([a, b]) == a + b && AfterWrites(f, [a, b]) == Wrote(f, Wrote(f, EMPTY, a), b)
  {
    assert [a, b][..1] == [a];
    OneWrite(f, a);
  }

  lemma Cancel<T>(a: seq<T>, x: seq<T>, y: seq<T>, b: seq<T>)
    requires a + x + b == a + y + b
    ensures x == y
  {
    assert |x| == |y|;
    assert x == (a + x + b)[|a|..|a| + |x|] && y == (a + y + b)[|a|..|a| + |y|];
  }

  /** A line that is not calm gives a stream two logs. */
  lemma LineShows(space: byte -> bool, s: Bytes, l: Bytes) returns (chunks: seq<Bytes>)
    requires space(CR) && l in Lines(s) && !Calm(space, l)
    ensures Concat(chunks) == s && AfterWrites(Bytewise(space), chunks) != Wrote(Bytewise(space), EMPTY, s)
  {
    var p := CutThatShows(space, l);
    var u, v := Locate(s, l);
    chunks := CutWithin(Bytewise(space), s, u, l, v, p);
  }

  lemma CutWithin(f: Bytes -> bool, s: Bytes, u: Bytes, l: Bytes, v: Bytes, p: nat) returns (chunks: seq<Bytes>)
    requires StandsBetween(s, u, l, v) && MAX_LINE < p <= |l|
    requires Records(f, l[..p]) + Records(f, l[p..]) != Records(f, l)
    ensures Concat(chunks) == s && AfterWrites(f, chunks) != Wrote(f, EMPTY, s)
  {
    var x, y := l[..p], l[p..];
    chunks := [u + x, y + ([NL] + v)];
    TwoChunks(f, u + x, y + ([NL] + v));
    Rejoined(u, l, p, v);
    NoneInParts(l, p);
    FlushingWrite(f, u, x);
    CutWrites(f, u, l, x, y, v);
  }

  lemma NoneInParts(l: Bytes, p: nat)
    requires p <= |l| && NL !in l
    ensures NL !in l[..p] && NL !in l[p..]
  {
  }

  lemma Rejoined(u: Bytes, l: Bytes, p: nat, v: Bytes)
    requires p <= |l|
    ensures u + l[..p] + (l[p..] + ([NL] + v)) == u + (l + ([NL] + v))
  {
    AppendAssoc(l[..p], l[p..], [NL] + v);
    AppendAssoc(u, l[..p], l[p..] + ([NL] + v));
    assert l[..p] + l[p..] == l;
  }

  lemma CutWrites(f: Bytes -> bool, u: Bytes, l: Bytes, x: Bytes, y: Bytes, v: Bytes)
    requires Rest(u) == [] && NL !in l && NL !in y && Records(f, x) + Records(f, y) != Records(f, l)
    requires var s := u + (l + ([NL] + v)); Lines(s) == Lines(u) + ([l] + Lines(v)) && Rest(s) == Rest(v)
    ensures Wrote(f, Log([], AllRecords(f, Lines(u)) + Records(f, x)), y + ([NL] + v)).out
            != Wrote(f, EMPTY, u + (l + ([NL] + v))).out
  {
    var s, t := u + (l + ([NL] + v)), y + ([NL] + v);
    var front, back := AllRecords(f, Lines(u)), AllRecords(f, Lines(v));
    LinesLogged(f, Lines(u), l, Lines(v));
    FirstLineOf(y, v);
    OneMore(f, y, Lines(v));
    WroteOut(f, front + Records(f, x), t);
    WroteOut(f, [], s);
    OutsDiffer(front, Records(f, x), Records(f, y), Records(f, l), back, Flush(f, Rest(v)));
  }

  /** What the end of a write flushes. */
  function Flush(f: Bytes -> bool, rest: Bytes): seq<Bytes> {
    if |rest| > MAX_LINE then Records(f, rest) else []
  }

  lemma WroteOut(f: Bytes -> bool, out: seq<Bytes>, s: Bytes)
    ensures Wrote(f, Log([], out), s).out == out + AllRecords(f, Lines(s)) + Flush(f, Rest(s))
  {
    assert [] + s == s;
    var logged := out + AllRecords(f, Lines(s));
    assert logged + [] == logged;
  }

  lemma OutsDiffer<T>(front: seq<T>, x: seq<T>, y: seq<T>, l: seq<T>, back: seq<T>, end: seq<T>)
    requires x + y != l
    ensures front + x + (y + back) + end != [] + (front + (l + back)) + end
  {
    assert front + x + (y + back) + end == front + (x + y) + (back + end);
    assert [] + (front + (l + back)) + end == front + l + (back + end);
    if front + (x + y) + (back + end) == front + l + (back + end) {
      Cancel(front, x + y, l, back + end);
    }
  }

  lemma FirstLineOf(y: Bytes, v: Bytes)
    requires NL !in y
    ensures Lines(y + ([NL] + v)) == [y] + Lines(v) && Rest(y + ([NL] + v)) == Rest(v)
  {
    var t := y + ([NL] + v);
    assert t[..|y|] == y && t[|y| + 1..] == v;
    CutAt(t, |y|);
  }

  /** An unfinished line that is flushed with more than one byte to spare is buffered
      in part when its last byte comes alone. */
  lemma RestShows(f: Bytes -> bool, s: Bytes) returns (chunks: seq<Bytes>)
    requires |Rest(s)| > MAX_LINE + 1
    ensures Concat(chunks) == s && AfterWrites(f, chunks) != Wrote(f, EMPTY, s)
  {
    var u, r := RestStart(s);
    var n := |r| - 1;
    chunks := [u + r[..n], r[n..]];
    NoneInParts(r, n);
    LastByteAlone(f, u, r[..n], r[n..]);
    AppendAssoc(u, r[..n], r[n..]);
    assert r[..n] + r[n..] == r;
    WholeWrite(f, s);
  }

  lemma LastByteAlone(f: Bytes -> bool, u: Bytes, x: Bytes, y: Bytes)
    requires Rest(u) == [] && NL !in x && NL !in y && |x| > MAX_LINE && |y| == 1
    ensures Concat([u + x, y]) == u + x + y && AfterWrites(f, [u + x, y]).buf == y
  {
    TwoChunks(f, u + x, y);
    FlushingWrite(f, u, x);
    BufferedByte(f, y, AllRecords(f, Lines(u)) + Records(f, x));
  }

  lemma BufferedByte(f: Bytes -> bool, y: Bytes, out: seq<Bytes>)
    requires |y| == 1 && NL !in y
    ensures Wrote(f, Log([], out), y).buf == y
  {
    assert [] + y == y;
  }

  lemma {:induction false} RestStart(s: Bytes) returns (u: Bytes, r: Bytes)
    ensures s == u + r && Rest(u) == [] && r == Rest(s) && NL !in r
    decreases |s|
  {
    if NL !in s {
      u, r := [], s;
    } else {
      var i := FirstNL(s);
      CutAt(s, i);
      Pieces(s, i);
      var w;
      w, r := RestStart(s[i + 1..]);
      u := s[..i] + ([NL] + w);
      FirstLineOf(s[..i], w);
      AppendAssoc(s[..i] + [NL], w, r);
      AppendAssoc(s[..i], [NL], w);
    }
  }

  // ------------------------------------------------------------------- the theorem

  /** Every way of cutting the stream into writes logs and buffers what one write does. */
  ghost predicate CutsDoNotShow(f: Bytes -> bool, s: Bytes) {
    forall chunks :: Concat(chunks) == s ==> AfterWrites(f, chunks) == Wrote(f, EMPTY, s)
  }

  /** That is so exactly when every complete line is calm and the unfinished one has
      at most 4097 bytes. */
  lemma CutsDoNotShowIff(space: byte -> bool, s: Bytes)
    requires space(CR)
    ensures CutsDoNotShow(Bytewise(space), s) <==>
            |Rest(s)| <= 4097 && forall l :: l in Lines(s) ==> Calm(space, l)
  {
    var f := Bytewise(space);
    if |Rest(s)| > MAX_LINE + 1 {
      var chunks := RestShows(f, s);
    } else if l :| l in Lines(s) && !Calm(space, l) {
      var chunks := LineShows(space, s, l);
    } else {
      forall chunks | Concat(chunks) == s ensures AfterWrites(f, chunks) == Wrote(f, EMPTY, s) {
        AlikeInPieces(space, chunks);
      }
    }
  }

  lemma AlikeInPieces(space: byte -> bool, chunks: seq<Bytes>)
    requires space(CR)
    requires var s := Concat(chunks); |Rest(s)| <= MAX_LINE + 1 && forall l :: l in Lines(s) ==> Calm(space, l)
    ensures AfterWrites(Bytewise(space), chunks) == Wrote(Bytewise(space), EMPTY, Concat(chunks))
  {
    var s := Concat(chunks);
    OneByteOver(space, Rest(s));
    var flushed := CalmWrites(space, chunks);
    OneWriteIs(space, s, AfterWrites(Bytewise(space), chunks), flushed);
  }

  lemma OneWriteIs(space: byte -> bool, s: Bytes, log: Log, flushed: Bytes)
    requires |Rest(s)| <= MAX_LINE + 1 && StateAfter(space, s, log, flushed)
    ensures log == Wrote(Bytewise(space), EMPTY, s)
  {
    WholeWrite(Bytewise(space), s);
    if flushed == [] {
      assert [] + log.buf == log.buf;
    } else {
      assert |Rest(s)| == |flushed| + |log.buf|;
    }
  }

  lemma WholeWrite(f: Bytes -> bool, s: Bytes)
    ensures Wrote(f, EMPTY, s) ==
            Log(if |Rest(s)| > MAX_LINE then [] else Rest(s), AllRecords(f, Lines(s)) + Flush(f, Rest(s)))
  {
    WroteOut(f, [], s);
    var out := AllRecords(f, Lines(s));
    assert [] + s == s && [] + out == out;
  }

  lemma OneByteOver(space: byte -> bool, l: Bytes)
    requires |l| <= MAX_LINE + 1
    ensures Calm(space, l)
  {
    if |l| == MAX_LINE + 1 {
      assert l[..MAX_LINE + 1] == l;
    }
  }
}
