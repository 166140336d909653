/** The splitter that turns a child's stderr into one record per line. `blank`
    says whether trimming Unicode white space leaves nothing of a line. */
module Stderr {

  import opened Prelude

  newtype byte = x: int | 0 <= x < 256

  type Bytes = seq<byte>

  const MAX_LINE: nat := 4096
  const NL: byte := 10
  const CR: byte := 13

  function TrimRightCR(line: Bytes): (r: Bytes)
    ensures |r| <= |line| && r == line[..|r|]
  {
    if line != [] && line[|line| - 1] == CR then TrimRightCR(line[..|line| - 1]) else line
  }

  /** The records one line gives rise to: none where it is blank. */
  function Records(blank: Bytes -> bool, line: Bytes): seq<Bytes> {
    var t := TrimRightCR(line);
    if blank(t) then [] else [if |t| > MAX_LINE then t[..MAX_LINE] else t]
  }

  /** The complete lines of a stream, without their separators. */
  function Lines(s: Bytes): seq<Bytes> {
    if NL !in s then []
    else var i := FirstNL(s); [s[..i]] + Lines(s[i + 1..])
  }

  /** What follows the last separator. */
  function Rest(s: Bytes): Bytes {
    if NL !in s then s else Rest(s[FirstNL(s) + 1..])
  }

  function FirstNL(s: Bytes): (i: nat)
    requires NL in s
    ensures i < |s| && s[i] == NL && forall k :: 0 <= k < i ==> s[k] != NL
  {
    if s[0] == NL then 0 else 1 + FirstNL(s[1..])
  }

  function AllRecords(blank: Bytes -> bool, lines: seq<Bytes>): seq<Bytes> {
    if lines == [] then [] else Records(blank, lines[0]) + AllRecords(blank, lines[1..])
  }

  /** The buffer and everything logged so far. */
  datatype Log = Log(buf: Bytes, out: seq<Bytes>)

  const EMPTY := Log([], [])

  function Wrote(blank: Bytes -> bool, l: Log, p: Bytes): Log {
    var s := l.buf + p;
    var out := l.out + AllRecords(blank, Lines(s));
    if |Rest(s)| > MAX_LINE then Log([], out + Records(blank, Rest(s))) else Log(Rest(s), out)
  }

  class StderrLogger {
    const blank: Bytes -> bool
    var buf: Bytes
    var out: seq<Bytes>

    constructor (blank: Bytes -> bool)
      ensures this.blank == blank && Value() == EMPTY
    {
      this.blank := blank;
      buf, out := [], [];
    }

    ghost function Value(): Log
      reads this
    {
      Log(buf, out)
    }

    method Emit(line: Bytes)
      modifies this`out
      ensures out == old(out) + Records(blank, line)
    {
      var t := TrimRightCR(line);
      if blank(t) {
        return;
      }
      if |t| > MAX_LINE {
        t := t[..MAX_LINE];
      }
      out := out + [t];
    }

    /** Consumes the complete lines, then flushes a partial line that is too long.
        Whatever is written, the buffer ends up no longer than a line may be. */
    method Write(p: Bytes) returns (n: nat)
      modifies this`buf, this`out
      ensures Value() == Wrote(blank, old(Value()), p)
      ensures n == |p| && |buf| <= 4096 && 10 !in buf
    {
      buf := buf + p;
      ghost var s := buf;
      while NL in buf
        invariant out + AllRecords(blank, Lines(buf)) == old(out) + AllRecords(blank, Lines(s))
        invariant Rest(buf) == Rest(s)
        decreases |buf|
      {
        var i := FirstNL(buf);
        LinesStep(blank, buf, out);
        Emit(buf[..i]);
        buf := buf[i + 1..];
      }
      if |buf| > MAX_LINE {
        Emit(buf);
        buf := [];
      }
      n := |p|;
    }
  }

  /** The first separator splits off the first line. */
  lemma CutAt(s: Bytes, i: nat)
    requires i < |s| && s[i] == NL && forall k :: 0 <= k < i ==> s[k] != NL
    ensures NL in s && FirstNL(s) == i
    ensures Lines(s) == [s[..i]] + Lines(s[i + 1..]) && Rest(s) == Rest(s[i + 1..])
    ensures Lines(s) != [] && Lines(s)[0] == s[..i] && Lines(s)[1..] == Lines(s[i + 1..])
  {
    FirstNLIs(s, i);
    HeadAndTail(s[..i], Lines(s[i + 1..]));
  }

  lemma HeadAndTail<T>(head: T, tail: seq<T>)
    ensures ([head] + tail)[0] == head && ([head] + tail)[1..] == tail
  {
  }

  lemma FirstNLIs(s: Bytes, i: nat)
    requires i < |s| && s[i] == NL && forall k :: 0 <= k < i ==> s[k] != NL
    ensures NL in s && FirstNL(s) == i
  {
    assert s[i] in s;
    var j := FirstNL(s);
    assert !(j < i) && !(i < j);
  }

  lemma Pieces(s: Bytes, i: nat)
    requires i < |s|
    ensures s == s[..i] + [s[i]] + s[i + 1..]
  {
  }

  lemma LinesStep(blank: Bytes -> bool, s: Bytes, out: seq<Bytes>)
    requires NL in s
    ensures var i := FirstNL(s);
            out + AllRecords(blank, Lines(s)) == out + Records(blank, s[..i]) + AllRecords(blank, Lines(s[i + 1..]))
  {
    var i := FirstNL(s);
    CutAt(s, i);
    AppendAssoc(out, Records(blank, s[..i]), AllRecords(blank, Lines(s[i + 1..])));
  }

  /** Lines with their separators put back. */
  function Joined(lines: seq<Bytes>): Bytes {
    if lines == [] then [] else lines[0] + [10] + Joined(lines[1..])
  }

  /** Splitting loses nothing: the lines with their separators and the rest are the stream. */
  lemma {:induction false} SplitIsLossless(s: Bytes)
    ensures Joined(Lines(s)) + Rest(s) == s && 10 !in Rest(s)
  {
    if NL in s {
      var i := FirstNL(s);
      var t := s[i + 1..];
      SplitIsLossless(t);
      CutAt(s, i);
      Pieces(s, i);
      AppendAssoc(s[..i] + [NL], Joined(Lines(t)), Rest(t));
    }
  }

  lemma SliceOfConcat(a: Bytes, b: Bytes, i: nat)
    requires i < |a|
    ensures (a + b)[..i] == a[..i] && (a + b)[i + 1..] == a[i + 1..] + b
  {
  }

  /** Splitting a stream in two first and going on from the rest is splitting it whole. */
  lemma {:induction false} SplitConcat(a: Bytes, b: Bytes)
    ensures Lines(a + b) == Lines(a) + Lines(Rest(a) + b)
    ensures Rest(a + b) == Rest(Rest(a) + b)
    decreases |a|
  {
    if NL in a {
      var i := FirstNL(a);
      var t := a[i + 1..];
      CutAt(a, i);
      CutAt(a + b, i);
      SliceOfConcat(a, b, i);
      SplitConcat(t, b);
      AppendAssoc([a[..i]], Lines(t), Lines(Rest(t) + b));
    }
  }

  function Concat(chunks: seq<Bytes>): Bytes {
    if chunks == [] then [] else Concat(chunks[..|chunks| - 1]) + chunks[|chunks| - 1]
  }

  /** A fresh splitter after a sequence of writes. */
  function AfterWrites(blank: Bytes -> bool, chunks: seq<Bytes>): Log {
    if chunks == [] then EMPTY
    else Wrote(blank, AfterWrites(blank, chunks[..|chunks| - 1]), chunks[|chunks| - 1])
  }

  /** No line of the stream, the unfinished one included, is longer than the limit. */
  ghost predicate ShortLines(s: Bytes) {
    |Rest(s)| <= MAX_LINE && forall l :: l in Lines(s) ==> |l| <= MAX_LINE
  }

  lemma {:induction false} RecordsConcat(blank: Bytes -> bool, a: seq<Bytes>, b: seq<Bytes>)
    ensures AllRecords(blank, a + b) == AllRecords(blank, a) + AllRecords(blank, b)
  {
    if a == [] {
      assert a + b == b;
    } else {
      assert (a + b)[1..] == a[1..] + b;
      RecordsConcat(blank, a[1..], b);
    }
  }

  /** A prefix of a stream of short lines is one. */
  lemma ShortPrefix(a: Bytes, b: Bytes)
    requires ShortLines(a + b)
    ensures ShortLines(a)
  {
    SplitConcat(a, b);
    var r := Rest(a);
    SplitIsLossless(a);
    if NL in r + b {
      var i := FirstNL(r + b);
      CutAt(r + b, i);
      assert i >= |r|;
      assert Lines(a + b)[|Lines(a)|] == (r + b)[..i];
    }
    forall l | l in Lines(a) ensures |l| <= MAX_LINE {
      assert l in Lines(a + b);
    }
  }

  /** Chunk independence: where no line is longer than the limit, any way of
      cutting the stream into writes logs the records of its lines and buffers its
      rest, just as one whole write does. */
  lemma {:induction false} ChunksDoNotMatter(blank: Bytes -> bool, chunks: seq<Bytes>)
    requires ShortLines(Concat(chunks))
    ensures AfterWrites(blank, chunks) == Log(Rest(Concat(chunks)), AllRecords(blank, Lines(Concat(chunks))))
    ensures AfterWrites(blank, chunks) == Wrote(blank, EMPTY, Concat(chunks))
  {
    var s := Concat(chunks);
    assert EMPTY.buf + s == s;
    if chunks != [] {
      var n := |chunks| - 1;
      var a, b := Concat(chunks[..n]), chunks[n];
      ShortPrefix(a, b);
      ChunksDoNotMatter(blank, chunks[..n]);
      SplitConcat(a, b);
      RecordsConcat(blank, Lines(a), Lines(Rest(a) + b));
    }
  }

  /** Some write of the sequence flushes an unfinished line. */
  predicate Flushes(blank: Bytes -> bool, chunks: seq<Bytes>) {
    chunks != [] &&
      var n := |chunks| - 1;
      (Flushes(blank, chunks[..n]) || |Rest(AfterWrites(blank, chunks[..n]).buf + chunks[n])| > MAX_LINE)
  }

  lemma {:induction false} ShortNeverFlushes(blank: Bytes -> bool, chunks: seq<Bytes>)
    requires ShortLines(Concat(chunks))
    ensures !Flushes(blank, chunks)
  {
    if chunks != [] {
      var n := |chunks| - 1;
      var a, b := Concat(chunks[..n]), chunks[n];
      ShortPrefix(a, b);
      ShortNeverFlushes(blank, chunks[..n]);
      ChunksDoNotMatter(blank, chunks[..n]);
      SplitConcat(a, b);
    }
  }

  /** Where the line that is too long ends, cutting there flushes it. */
  lemma {:induction false} LongLineCut(s: Bytes) returns (cut: nat)
    requires !ShortLines(s)
    ensures cut <= |s| && |Rest(s[..cut])| > MAX_LINE
    decreases |s|
  {
    if NL !in s {
      cut := |s|;
      assert s[..cut] == s;
    } else {
      var i := FirstNL(s);
      CutAt(s, i);
      if i > MAX_LINE {
        cut := i;
      } else {
        var t := s[i + 1..];
        if ShortLines(t) {
          ShortAfterFirst(s);
        }
        var c := LongLineCut(t);
        cut := i + 1 + c;
        CutAt(s[..cut], i);
        assert s[..cut][i + 1..] == t[..c];
      }
    }
  }

  lemma ShortAfterFirst(s: Bytes)
    requires NL in s && FirstNL(s) <= MAX_LINE && ShortLines(s[FirstNL(s) + 1..])
    ensures ShortLines(s)
  {
    CutAt(s, FirstNL(s));
  }

  /** An unfinished line is never flushed early, however the stream is cut,
      exactly when no line is longer than the limit. */
  lemma NeverFlushesIff(blank: Bytes -> bool, s: Bytes)
    ensures (forall chunks :: Concat(chunks) == s ==> !Flushes(blank, chunks)) <==> ShortLines(s)
  {
    if ShortLines(s) {
      forall chunks | Concat(chunks) == s ensures !Flushes(blank, chunks) {
        ShortNeverFlushes(blank, chunks);
      }
    } else {
      var cut := LongLineCut(s);
      var chunks := [s[..cut], s[cut..]];
      assert chunks[..1] == [s[..cut]] && [s[..cut]][..0] == [];
      assert Concat([s[..cut]]) == s[..cut];
      assert Concat(chunks) == s;
      assert AfterWrites(blank, []).buf + s[..cut] == s[..cut];
      assert Flushes(blank, [s[..cut]]);
      assert Flushes(blank, chunks);
    }
  }

  /** And then the cut shows: a line of more than 4097 bytes with text on both
      sides of byte 4097 is one record in one write and two when cut there. */
  lemma LongLinesDependOnChunks(blank: Bytes -> bool, line: Bytes)
    requires NL !in line && |line| > MAX_LINE + 1
    requires !blank(TrimRightCR(line)) && !blank(TrimRightCR(line[..MAX_LINE + 1])) && !blank(TrimRightCR(line[MAX_LINE + 1..]))
    ensures var head, tail := line[..MAX_LINE + 1], line[MAX_LINE + 1..] + [NL];
            && Concat([head, tail]) == Concat([line + [NL]]) == line + [NL]
            && |AfterWrites(blank, [line + [NL]]).out| == 1
            && |AfterWrites(blank, [head, tail]).out| == 2
  {
    var head, end := line[..MAX_LINE + 1], line[MAX_LINE + 1..];
    assert head + end == line;
    OneWrite(blank, line + [NL]);
    OneLine(line);
    OneRecord(blank, line);
    TwoWrites(blank, head, end);
  }

  lemma TwoWrites(blank: Bytes -> bool, head: Bytes, end: Bytes)
    requires NL !in head && NL !in end && |head| > MAX_LINE
    ensures Concat([head, end + [NL]]) == head + end + [NL]
    ensures AfterWrites(blank, [head, end + [NL]]).out == Records(blank, head) + Records(blank, end)
  {
    var tail := end + [NL];
    assert [head, tail][..1] == [head];
    OneWrite(blank, head);
    OneLine(end);
    OneRecord(blank, end);
    AppendAssoc(head, end, [NL]);
    assert [] + tail == tail;
  }

  lemma OneWrite(blank: Bytes -> bool, p: Bytes)
    ensures Concat([p]) == p && AfterWrites(blank, [p]) == Wrote(blank, EMPTY, p)
    ensures NL !in p ==> AfterWrites(blank, [p]) == if |p| > MAX_LINE then Log([], Records(blank, p)) else Log(p, [])
  {
    assert [p][..0] == [] && [] + p == p;
  }

  lemma OneRecord(blank: Bytes -> bool, line: Bytes)
    ensures AllRecords(blank, [line]) == Records(blank, line)
  {
    assert AllRecords(blank, [line]) == Records(blank, line) + [];
  }

  lemma OneLine(line: Bytes)
    requires NL !in line
    ensures Lines(line + [NL]) == [line] && Rest(line + [NL]) == []
  {
    var s := line + [NL];
    assert s[..|line|] == line && s[|line| + 1..] == [];
    CutAt(s, |line|);
  }
}
