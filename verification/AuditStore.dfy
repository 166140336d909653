/** The audit table as a sequence of rows in id order. */
module AuditStore {

  import opened Prelude
  import opened Utf8

  /** `args` and `result` are stored as bytes. */
  datatype Record = Record(
    ts: int, namespace: string, server: string, tool: string, caller: string, args: seq<Byte>,
    resultSize: int, result: seq<Byte>, durationMs: int, status: string, error: string)

  datatype Row = Row(id: int, rec: Record)

  datatype Filter = Filter(
    namespace: string, server: string, tool: string, status: string, since: Option<int>, afterId: int, limit: int)

  const MAX_LIMIT := 1000
  const DEFAULT_LIMIT: nat := 100

  ghost predicate Ordered(rows: seq<Row>) {
    && (forall i :: 0 <= i < |rows| ==> rows[i].id >= 1)
    && forall i, j :: 0 <= i < j < |rows| ==> rows[i].id < rows[j].id
  }

  /** The id a new row gets: one above the largest present, since ids are not kept
      back from reuse. */
  function NextId(rows: seq<Row>): int {
    if rows == [] then 1 else rows[|rows| - 1].id + 1
  }

  function Inserted(rows: seq<Row>, rec: Record): seq<Row> {
    rows + [Row(NextId(rows), rec)]
  }

  function Keep(p: Row -> bool, rows: seq<Row>): seq<Row> {
    if rows == [] then []
    else
      var r := rows[|rows| - 1];
      var rest := Keep(p, rows[..|rows| - 1]);
      if p(r) then rest + [r] else rest
  }

  function Pruned(rows: seq<Row>, before: int): seq<Row> {
    Keep((r: Row) => r.rec.ts >= before, rows)
  }

  predicate Matches(f: Filter, r: Row) {
    && (f.namespace != "" ==> r.rec.namespace == f.namespace)
    && (f.server != "" ==> r.rec.server == f.server)
    && (f.tool != "" ==> r.rec.tool == f.tool)
    && (f.status != "" ==> r.rec.status == f.status)
    && (f.since.Some? ==> r.rec.ts >= f.since.value)
    && (f.afterId > 0 ==> r.id > f.afterId)
  }

  function LimitOf(f: Filter): nat {
    if f.limit <= 0 || f.limit > MAX_LIMIT then DEFAULT_LIMIT else f.limit
  }

  function Matching(f: Filter, rows: seq<Row>): seq<Row> {
    Keep((r: Row) => Matches(f, r), rows)
  }

  function Reverse(rows: seq<Row>): (r: seq<Row>)
    ensures |r| == |rows| && forall i :: 0 <= i < |r| ==> r[i] == rows[|rows| - 1 - i]
  {
    if rows == [] then [] else [rows[|rows| - 1]] + Reverse(rows[..|rows| - 1])
  }

  function First(rows: seq<Row>, n: nat): seq<Row> {
    if |rows| > n then rows[..n] else rows
  }

  /** What a query answers: newest first, or oldest first where it continues after an id. */
  function Select(f: Filter, rows: seq<Row>): seq<Row> {
    First(Candidates(f, rows), LimitOf(f))
  }

  /** The matching rows in the answer's order. */
  function Candidates(f: Filter, rows: seq<Row>): seq<Row> {
    if f.afterId > 0 then Matching(f, rows) else Reverse(Matching(f, rows))
  }

  // ---------------------------------------------------------------- the store

  datatype Cond =
    NamespaceIs(v: string) | ServerIs(v: string) | ToolIs(v: string) | StatusIs(v: string) | Since(ts: int) | After(id: int)

  predicate Sat(c: Cond, r: Row) {
    match c
    case NamespaceIs(v) => r.rec.namespace == v
    case ServerIs(v) => r.rec.server == v
    case ToolIs(v) => r.rec.tool == v
    case StatusIs(v) => r.rec.status == v
    case Since(ts) => r.rec.ts >= ts
    case After(id) => r.id > id
  }

  predicate SatAll(where: seq<Cond>, r: Row) {
    forall c :: c in where ==> Sat(c, r)
  }

  /** A select with its conditions joined by AND, ordered by id and cut to a limit. */
  function Sql(where: seq<Cond>, ascending: bool, limit: nat, rows: seq<Row>): seq<Row> {
    var kept := Keep((r: Row) => SatAll(where, r), rows);
    First(if ascending then kept else Reverse(kept), limit)
  }

  lemma {:induction false} KeepCongruent(p: Row -> bool, q: Row -> bool, rows: seq<Row>)
    requires forall r :: p(r) == q(r)
    ensures Keep(p, rows) == Keep(q, rows)
  {
    if rows != [] {
      KeepCongruent(p, q, rows[..|rows| - 1]);
    }
  }

  lemma OneMoreCond(where: seq<Cond>, c: Cond)
    ensures forall r :: SatAll(where + [c], r) <==> SatAll(where, r) && Sat(c, r)
  {
    assert forall d :: d in where + [c] <==> d in where || d == c;
  }

  class Store {
    var rows: seq<Row>

    method Insert(rec: Record, fails: bool)
      modifies this
      ensures rows == if fails then old(rows) else Inserted(old(rows), rec)
    {
      if !fails {
        var id := if |rows| == 0 then 1 else rows[|rows| - 1].id + 1;
        rows := rows + [Row(id, rec)];
      }
    }

    method Prune(before: int) returns (n: nat)
      modifies this
      ensures rows == Pruned(old(rows), before) && n == old(|rows|) - |rows|
    {
      var kept: seq<Row> := [];
      n := 0;
      for k := 0 to |rows|
        invariant kept == Pruned(rows[..k], before) && n == k - |kept|
        invariant rows == old(rows)
      {
        assert rows[..k + 1][..k] == rows[..k];
        if rows[k].rec.ts < before {
          n := n + 1;
        } else {
          kept := kept + [rows[k]];
        }
      }
      assert rows[..|rows|] == rows;
      rows := kept;
    }

    method Add(where: seq<Cond>, on: bool, c: Cond) returns (r: seq<Cond>)
      ensures forall t :: SatAll(r, t) <==> SatAll(where, t) && (on ==> Sat(c, t))
    {
      r := where;
      if on {
        OneMoreCond(where, c);
        r := r + [c];
      }
    }

    method Query(f: Filter) returns (out: seq<Row>)
      ensures out == Select(f, rows)
    {
      var where := Add([], f.namespace != "", NamespaceIs(f.namespace));
      where := Add(where, f.server != "", ServerIs(f.server));
      where := Add(where, f.tool != "", ToolIs(f.tool));
      where := Add(where, f.status != "", StatusIs(f.status));
      if f.since.Some? {
        where := Add(where, true, Since(f.since.value));
      }
      var ascending := false;
      if f.afterId > 0 {
        where := Add(where, true, After(f.afterId));
        ascending := true;
      }
      var limit := f.limit;
      if limit <= 0 || limit > MAX_LIMIT {
        limit := DEFAULT_LIMIT;
      }
      KeepCongruent((r: Row) => SatAll(where, r), (r: Row) => Matches(f, r), rows);
      out := Sql(where, ascending, limit, rows);
    }
  }

  // ------------------------------------------------------------------- queries

  lemma {:induction false} KeepMembers(p: Row -> bool, rows: seq<Row>)
    ensures forall r :: r in Keep(p, rows) <==> r in rows && p(r)
  {
    if rows != [] {
      var n := |rows| - 1;
      KeepMembers(p, rows[..n]);
      assert rows == rows[..n] + [rows[n]];
    }
  }

  lemma {:induction false} KeepOrdered(p: Row -> bool, rows: seq<Row>)
    requires Ordered(rows)
    ensures Ordered(Keep(p, rows))
  {
    if rows != [] {
      var n := |rows| - 1;
      KeepOrdered(p, rows[..n]);
      KeepMembers(p, rows[..n]);
      var rest := Keep(p, rows[..n]);
      forall i | 0 <= i < |rest| ensures rest[i].id < rows[n].id {
        assert rest[i] in rest;
        var k :| 0 <= k < n && rows[..n][k] == rest[i];
      }
    }
  }

  /** Every store operation keeps the ids in order. */
  lemma StoreStaysOrdered(rows: seq<Row>, rec: Record, before: int)
    requires Ordered(rows)
    ensures Ordered(Inserted(rows, rec)) && Ordered(Pruned(rows, before))
  {
    KeepOrdered((r: Row) => r.rec.ts >= before, rows);
  }

  /** Pruning deletes exactly the rows older than the bound. */
  lemma PrunedMembers(rows: seq<Row>, before: int)
    ensures forall r :: r in Pruned(rows, before) <==> r in rows && r.rec.ts >= before
  {
    KeepMembers((r: Row) => r.rec.ts >= before, rows);
  }

  /** `a` comes before `b` in the answer's order. */
  predicate Sooner(f: Filter, a: Row, b: Row) {
    if f.afterId > 0 then a.id < b.id else a.id > b.id
  }

  /** What a filter asks of a row: each setting that is not empty. */
  ghost predicate Asked(f: Filter, r: Row) {
    && f.namespace in {"", r.rec.namespace} && f.server in {"", r.rec.server}
    && f.tool in {"", r.rec.tool} && f.status in {"", r.rec.status}
    && (f.since.None? || f.since.value <= r.rec.ts)
    && (f.afterId <= 0 || f.afterId < r.id)
  }

  lemma AskedIff(f: Filter)
    ensures forall r :: Asked(f, r) <==> Matches(f, r)
  {
  }

  /** A query answers rows the filter asks for only, newest first, or oldest first
      where it goes on after an id, and leaves one out only when the answer is full of
      rows that come sooner. It is full at the limit, or at a hundred where the limit
      is not between one and a thousand. */
  lemma SelectIsWindow(f: Filter, rows: seq<Row>)
    requires Ordered(rows)
    ensures var out := Select(f, rows);
            var full := if 1 <= f.limit <= 1000 then f.limit else 100;
            && |out| <= full
            && (forall r :: r in out ==> r in rows && Asked(f, r))
            && (forall i, j :: 0 <= i < j < |out| ==> if f.afterId > 0 then out[i].id < out[j].id else out[i].id > out[j].id)
            && (forall r :: r in rows && Asked(f, r) && r !in out ==>
                  |out| == full && forall o :: o in out ==> if f.afterId > 0 then o.id < r.id else o.id > r.id)
  {
    AskedIff(f);
    SelectWindow(f, rows);
  }

  lemma SelectWindow(f: Filter, rows: seq<Row>)
    requires Ordered(rows)
    ensures var out := Select(f, rows);
            && |out| <= LimitOf(f)
            && (forall r :: r in out ==> r in rows && Matches(f, r))
            && (forall i, j :: 0 <= i < j < |out| ==> Sooner(f, out[i], out[j]))
            && (forall r :: r in rows && Matches(f, r) && r !in out ==>
                  |out| == LimitOf(f) && forall o :: o in out ==> Sooner(f, o, r))
  {
    InQueryOrder(f, rows);
    Window(f, Candidates(f, rows), LimitOf(f));
  }

  lemma InQueryOrder(f: Filter, rows: seq<Row>)
    requires Ordered(rows)
    ensures forall r :: r in Candidates(f, rows) <==> r in rows && Matches(f, r)
    ensures forall i, j :: 0 <= i < j < |Candidates(f, rows)| ==> Sooner(f, Candidates(f, rows)[i], Candidates(f, rows)[j])
  {
    KeepMembers((r: Row) => Matches(f, r), rows);
    KeepOrdered((r: Row) => Matches(f, r), rows);
    ReverseMembers(Matching(f, rows));
  }

  lemma ReverseMembers(rows: seq<Row>)
    ensures forall r :: r in Reverse(rows) <==> r in rows
  {
    forall r | r in rows ensures r in Reverse(rows) {
      var k :| 0 <= k < |rows| && rows[k] == r;
      assert Reverse(rows)[|rows| - 1 - k] == r;
    }
  }

  /** What the front of an ordered list leaves out comes later. */
  lemma Window(f: Filter, s: seq<Row>, n: nat)
    requires forall i, j :: 0 <= i < j < |s| ==> Sooner(f, s[i], s[j])
    ensures |First(s, n)| <= n && First(s, n) <= s
    ensures forall r :: r in s && r !in First(s, n) ==> |First(s, n)| == n && forall o :: o in First(s, n) ==> Sooner(f, o, r)
  {
    var out := First(s, n);
    assert forall i :: 0 <= i < |out| ==> out[i] == s[i] && s[i] in out;
  }
}
