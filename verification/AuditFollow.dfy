/** `gateway audit tail`: printing the newest rows and following new ones. */
module AuditFollow {

  import opened Prelude
  import opened AuditStore

  /** The id of the row last printed, and all rows printed so far. */
  datatype Cursor = Cursor(last: int, printed: seq<Row>)

  const POLL_LIMIT := 1000

  function Max(a: int, b: int): int {
    if a > b then a else b
  }

  function Highest(rows: seq<Row>): int {
    if rows == [] then 0 else Max(Highest(rows[..|rows| - 1]), rows[|rows| - 1].id)
  }

  function Tailed(base: Filter, n: int, rows: seq<Row>): Cursor {
    var shown := Reverse(Select(base.(limit := n), rows));
    Cursor(Highest(shown), shown)
  }

  function After(base: Filter, last: int): Filter {
    base.(afterId := Max(last, 1), limit := POLL_LIMIT)
  }

  function Polled(base: Filter, c: Cursor, rows: seq<Row>): Cursor {
    var shown := Select(After(base, c.last), rows);
    Cursor(if shown == [] then c.last else shown[|shown| - 1].id, c.printed + shown)
  }

  class Follower {
    const base: Filter
    var last: int
    var printed: seq<Row>

    constructor (base: Filter)
      ensures this.base == base && last == 0 && printed == []
    {
      this.base := base;
      last := 0;
      printed := [];
    }

    /** Prints the newest rows, oldest of them first. */
    method Tail(store: Store, n: int)
      requires last == 0 && printed == []
      modifies this
      ensures Cursor(last, printed) == Tailed(base, n, store.rows)
      ensures printed == Reverse(Select(base.(limit := n), store.rows))
    {
      var rows := store.Query(base.(limit := n));
      ghost var shown := Reverse(rows);
      for i := |rows| downto 0
        invariant printed == shown[..|rows| - i]
        invariant last == Highest(shown[..|rows| - i])
      {
        ghost var k := |rows| - i - 1;
        assert shown[..k + 1][..k] == shown[..k] && shown[k] == rows[i];
        printed := printed + [rows[i]];
        last := Max(last, rows[i].id);
      }
      assert shown[..|rows|] == shown;
    }

    /** One round of the follow loop. */
    method Poll(store: Store)
      modifies this
      ensures Cursor(last, printed) == Polled(base, old(Cursor(last, printed)), store.rows)
      ensures var more := Select(base.(afterId := if old(last) > 1 then old(last) else 1, limit := 1000), store.rows);
              && printed == old(printed) + more
              && last == if more == [] then old(last) else more[|more| - 1].id
    {
      var f := base.(afterId := Max(last, 1), limit := POLL_LIMIT);
      var rows := store.Query(f);
      for k := 0 to |rows|
        invariant printed == old(printed) + rows[..k]
        invariant last == if k == 0 then old(last) else rows[k - 1].id
      {
        AppendAssoc(old(printed), rows[..k], [rows[k]]);
        printed := printed + [rows[k]];
        last := rows[k].id;
      }
      assert rows[..|rows|] == rows;
    }
  }

  // ----------------------------------------------------------------- whole runs

  /** What happens to the table while it is followed, and the follower's rounds. */
  datatype Event = Insert(rec: Record) | Prune(before: int) | Poll

  datatype World = World(rows: seq<Row>, cur: Cursor)

  function Next(base: Filter, w: World, e: Event): World {
    match e
    case Insert(rec) => w.(rows := Inserted(w.rows, rec))
    case Prune(before) => w.(rows := Pruned(w.rows, before))
    case Poll => w.(cur := Polled(base, w.cur, w.rows))
  }

  function Run(base: Filter, w: World, es: seq<Event>): World {
    if es == [] then w else Next(base, Run(base, w, es[..|es| - 1]), es[|es| - 1])
  }

  function NewestId(rows: seq<Row>): int {
    if rows == [] then 0 else rows[|rows| - 1].id
  }

  /** Pruning leaves the newest row alone. */
  predicate KeepsNewest(rows: seq<Row>, before: int) {
    rows != [] ==> rows[|rows| - 1].rec.ts >= before
  }

  ghost predicate Safe(base: Filter, w: World, es: seq<Event>) {
    forall k :: 0 <= k < |es| && es[k].Prune? ==>
      var rows := Run(base, w, es[..k]).rows;
      rows != [] ==> rows[|rows| - 1].rec.ts >= es[k].before
  }

  ghost predicate Increasing(rows: seq<Row>) {
    forall i, j :: 0 <= i < j < |rows| ==> rows[i].id < rows[j].id
  }

  /** Every matching row between the start of following and the cursor is printed. */
  ghost predicate Complete(base: Filter, floor: int, w: World) {
    forall r :: r in w.rows && Matches(base, r) && floor < r.id <= w.cur.last ==> r in w.cur.printed
  }

  ghost predicate Inv(base: Filter, floor: int, w: World) {
    && Ordered(w.rows) && Increasing(w.cur.printed)
    && (forall p :: p in w.cur.printed ==> p.id <= w.cur.last && Matches(base, p))
    && 0 <= w.cur.last <= NewestId(w.rows)
    && 1 <= floor <= Max(w.cur.last, 1)
    && Complete(base, floor, w)
  }

  lemma AfterMatches(base: Filter, last: int, r: Row)
    requires base.afterId == 0
    ensures Matches(After(base, last), r) <==> Matches(base, r) && r.id > Max(last, 1)
  {
  }

  lemma InsertKeeps(base: Filter, floor: int, w: World, rec: Record)
    requires Inv(base, floor, w)
    ensures Inv(base, floor, Next(base, w, Insert(rec)))
  {
    StoreStaysOrdered(w.rows, rec, 0);
    var rows' := Inserted(w.rows, rec);
    assert forall r :: r in rows' <==> r in w.rows || r == Row(NextId(w.rows), rec);
  }

  lemma PruneKeeps(base: Filter, floor: int, w: World, before: int)
    requires Inv(base, floor, w) && KeepsNewest(w.rows, before)
    ensures Inv(base, floor, Next(base, w, Prune(before)))
    ensures NewestId(Pruned(w.rows, before)) == NewestId(w.rows)
  {
    KeepOrdered((r: Row) => r.rec.ts >= before, w.rows);
    PrunedMembers(w.rows, before);
  }

  lemma PollShows(base: Filter, last: int, rows: seq<Row>)
    requires Ordered(rows) && base.afterId == 0
    ensures var shown := Select(After(base, last), rows);
            && Increasing(shown)
            && (forall r :: r in shown ==> r in rows && Matches(base, r) && r.id > Max(last, 1))
            && (forall r :: r in rows && Matches(base, r) && r.id > Max(last, 1) && r !in shown ==>
                  |shown| == POLL_LIMIT && r.id > shown[|shown| - 1].id)
  {
    var f := After(base, last);
    SelectWindow(f, rows);
    var shown := Select(f, rows);
    forall r ensures Matches(f, r) <==> Matches(base, r) && r.id > Max(last, 1) {
      AfterMatches(base, last, r);
    }
    forall r | r in rows && Matches(base, r) && r.id > Max(last, 1) && r !in shown
      ensures |shown| == POLL_LIMIT && r.id > shown[|shown| - 1].id
    {
      assert shown[|shown| - 1] in shown;
    }
    assert forall i, j :: 0 <= i < j < |shown| ==> Sooner(f, shown[i], shown[j]);
  }

  lemma PollKeeps(base: Filter, floor: int, w: World)
    requires Inv(base, floor, w) && base.afterId == 0
    ensures Inv(base, floor, Next(base, w, Poll))
  {
    var shown := Select(After(base, w.cur.last), w.rows);
    PollShows(base, w.cur.last, w.rows);
    var c := Polled(base, w.cur, w.rows);
    if shown != [] {
      assert shown[|shown| - 1] in shown;
      LastIsHighest(shown);
      InIdOrder(w.rows, shown[|shown| - 1]);
    }
    PrintedIncreasing(w.cur.printed, shown, w.cur.last);
    forall p | p in c.printed ensures p.id <= c.last && Matches(base, p) {
    }
  }

  lemma LastIsHighest(rows: seq<Row>)
    requires rows != [] && Increasing(rows)
    ensures forall r :: r in rows ==> r.id <= rows[|rows| - 1].id
  {
  }

  lemma InIdOrder(rows: seq<Row>, r: Row)
    requires Ordered(rows) && r in rows
    ensures r.id <= NewestId(rows)
  {
  }

  lemma PrintedIncreasing(a: seq<Row>, b: seq<Row>, last: int)
    requires Increasing(a) && Increasing(b)
    requires (forall p :: p in a ==> p.id <= last) && (forall p :: p in b ==> p.id > last)
    ensures Increasing(a + b)
  {
    forall i, j | 0 <= i < j < |a + b| ensures (a + b)[i].id < (a + b)[j].id {
      if i < |a| <= j {
        assert a[i] in a && b[j - |a|] in b;
      }
    }
  }

  lemma {:induction false} HighestIsLast(rows: seq<Row>)
    requires Ordered(rows)
    ensures Highest(rows) == NewestId(rows)
  {
    if rows != [] {
      HighestIsLast(rows[..|rows| - 1]);
    }
  }

  /** The tail shows the newest matching rows in id order. */
  lemma TailShows(base: Filter, n: int, rows: seq<Row>)
    requires Ordered(rows) && base.afterId == 0
    ensures var c := Tailed(base, n, rows);
            && Ordered(c.printed)
            && (forall p :: p in c.printed ==> p in rows && Matches(base, p))
            && (forall r :: r in rows && Matches(base, r) && r !in c.printed ==>
                  |c.printed| == LimitOf(base.(limit := n)) && forall p :: p in c.printed ==> r.id < p.id)
  {
    var s := Select(base.(limit := n), rows);
    NewestWindow(base, base.(limit := n), rows);
    ReverseMembers(s);
    ReverseOrdered(rows, s);
    assert |Reverse(s)| == |s|;
  }

  /** A tail's query: the newest matching rows, newest first. */
  lemma NewestWindow(base: Filter, f: Filter, rows: seq<Row>)
    requires Ordered(rows) && base.afterId == 0 && f == base.(limit := f.limit)
    ensures var s := Select(f, rows);
            && (forall p :: p in s ==> p in rows && Matches(base, p))
            && (forall i, j :: 0 <= i < j < |s| ==> s[i].id > s[j].id)
            && (forall r :: r in rows && Matches(base, r) && r !in s ==> |s| == LimitOf(f) && forall p :: p in s ==> r.id < p.id)
  {
    SelectWindow(f, rows);
    LimitAside(base, f);
    var s := Select(f, rows);
    assert forall i, j :: 0 <= i < j < |s| ==> Sooner(f, s[i], s[j]);
    assert forall r, p :: r in rows && Matches(f, r) && r !in s && p in s ==> Sooner(f, p, r);
  }

  lemma LimitAside(base: Filter, f: Filter)
    requires f == base.(limit := f.limit)
    ensures forall r :: Matches(f, r) <==> Matches(base, r)
  {
  }

  lemma ReverseOrdered(rows: seq<Row>, s: seq<Row>)
    requires Ordered(rows) && (forall r :: r in s ==> r in rows) && forall i, j :: 0 <= i < j < |s| ==> s[i].id > s[j].id
    ensures Ordered(Reverse(s))
  {
    var t := Reverse(s);
    forall i | 0 <= i < |t| ensures t[i].id >= 1 {
      assert t[i] == s[|s| - 1 - i] && s[|s| - 1 - i] in rows;
    }
    forall i, j | 0 <= i < j < |t| ensures t[i].id < t[j].id {
      assert s[|s| - 1 - j].id > s[|s| - 1 - i].id;
    }
  }

  lemma ReverseMembers(s: seq<Row>)
    ensures forall r :: r in Reverse(s) <==> r in s
  {
    forall r | r in s ensures r in Reverse(s) {
      var k :| 0 <= k < |s| && s[k] == r;
      assert Reverse(s)[|s| - 1 - k] == r;
    }
  }

  /** After the tail the cursor is on the newest row shown. */
  lemma TailStarts(base: Filter, n: int, rows: seq<Row>)
    requires Ordered(rows) && base.afterId == 0
    ensures var c := Tailed(base, n, rows);
            Inv(base, Max(c.last, 1), World(rows, c)) && c.last == NewestId(c.printed)
  {
    var c := Tailed(base, n, rows);
    TailShows(base, n, rows);
    HighestIsLast(c.printed);
    if c.printed != [] {
      InIdOrder(rows, c.printed[|c.printed| - 1]);
    }
    forall p | p in c.printed ensures p.id <= c.last {
      InIdOrder(c.printed, p);
    }
  }

  lemma SafeBefore(base: Filter, w: World, es: seq<Event>)
    requires es != [] && Safe(base, w, es)
    ensures Safe(base, w, es[..|es| - 1])
    ensures var e, v := es[|es| - 1], Run(base, w, es[..|es| - 1]);
            e.Prune? ==> KeepsNewest(v.rows, e.before)
  {
    assert forall k :: 0 <= k < |es| - 1 ==> es[..|es| - 1][..k] == es[..k];
  }

  lemma {:induction false} FollowInv(base: Filter, floor: int, w: World, es: seq<Event>)
    requires Inv(base, floor, w) && base.afterId == 0 && Safe(base, w, es)
    ensures Inv(base, floor, Run(base, w, es))
  {
    if es != [] {
      var n := |es| - 1;
      SafeBefore(base, w, es);
      FollowInv(base, floor, w, es[..n]);
      var v := Run(base, w, es[..n]);
      match es[n]
      case Insert(rec) => InsertKeeps(base, floor, v, rec);
      case Prune(before) => PruneKeeps(base, floor, v, before);
      case Poll => PollKeeps(base, floor, v);
    }
  }

  /** However inserts, prunes and polls interleave, as long as pruning keeps the
      newest row: ids are printed in strictly increasing order, so none twice, and
      every surviving matching row from the start of following up to the cursor is
      printed. */
  lemma FollowPrintsOnce(base: Filter, n: int, rows: seq<Row>, es: seq<Event>)
    requires Ordered(rows) && base.afterId == 0
    requires Safe(base, World(rows, Tailed(base, n, rows)), es)
    ensures var start := Tailed(base, n, rows);
            var w := Run(base, World(rows, start), es);
            && Increasing(w.cur.printed)
            && (forall p :: p in w.cur.printed ==> Matches(base, p))
            && Complete(base, Max(start.last, 1), w)
            && w.cur.last <= NewestId(w.rows)
  {
    var start := Tailed(base, n, rows);
    TailStarts(base, n, rows);
    FollowInv(base, Max(start.last, 1), World(rows, start), es);
  }

  /** A poll that does not fill its limit has caught up: nothing is pending. */
  lemma PollCatchesUp(base: Filter, floor: int, w: World)
    requires Inv(base, floor, w) && base.afterId == 0
    requires |Select(After(base, w.cur.last), w.rows)| < POLL_LIMIT
    ensures forall r :: r in w.rows && Matches(base, r) && r.id > floor ==> r in Polled(base, w.cur, w.rows).printed
  {
    PollShows(base, w.cur.last, w.rows);
    forall r | r in w.rows && Matches(base, r) && r.id > floor
      ensures r in Polled(base, w.cur, w.rows).printed
    {
      if r.id > w.cur.last {
        assert r.id > Max(w.cur.last, 1);
      }
    }
  }

  // --------------------------------------------------------------- missed rows

  /** Whatever is printed from here on has an id above the cursor, and above 1. */
  lemma {:induction false} OldIdsStayHidden(base: Filter, w: World, es: seq<Event>)
    requires Ordered(w.rows) && base.afterId == 0
    ensures var v := Run(base, w, es);
            && Ordered(v.rows) && w.cur.last <= v.cur.last && w.cur.printed <= v.cur.printed
            && forall k :: |w.cur.printed| <= k < |v.cur.printed| ==> v.cur.printed[k].id > Max(w.cur.last, 1)
  {
    if es != [] {
      var n := |es| - 1;
      OldIdsStayHidden(base, w, es[..n]);
      var u := Run(base, w, es[..n]);
      match es[n]
      case Insert(rec) => StoreStaysOrdered(u.rows, rec, 0);
      case Prune(before) => KeepOrdered((r: Row) => r.rec.ts >= before, u.rows);
      case Poll =>
        PollShows(base, u.cur.last, u.rows);
        var shown := Select(After(base, u.cur.last), u.rows);
        forall k | 0 <= k < |shown| ensures shown[k].id > Max(u.cur.last, 1) {
          assert shown[k] in shown;
        }
    }
  }

  /** The row is printed in the course of these events. */
  ghost predicate Prints(base: Filter, w: World, es: seq<Event>, r: Row) {
    var printed := Run(base, w, es).cur.printed;
    exists k :: |w.cur.printed| <= k < |printed| && printed[k] == r
  }

  lemma {:induction false} RunFirst(base: Filter, w: World, e: Event, es: seq<Event>)
    ensures Run(base, w, [e] + es) == Run(base, Next(base, w, e), es)
  {
    var all := [e] + es;
    if es == [] {
      assert all[..0] == [];
    } else {
      assert all[..|all| - 1] == [e] + es[..|es| - 1];
      RunFirst(base, w, e, es[..|es| - 1]);
    }
  }

  lemma PollPrints(base: Filter, w: World, r: Row)
    requires r in Select(After(base, w.cur.last), w.rows)
    ensures Prints(base, w, [Poll], r)
  {
    var shown := Select(After(base, w.cur.last), w.rows);
    var k :| 0 <= k < |shown| && shown[k] == r;
    RunFirst(base, w, Poll, []);
    assert [Poll] + [] == [Poll];
    assert (w.cur.printed + shown)[|w.cur.printed| + k] == r;
  }

  lemma PrintsLater(base: Filter, w: World, es: seq<Event>, r: Row)
    requires Prints(base, Next(base, w, Poll), es, r)
    ensures Prints(base, w, [Poll] + es, r)
  {
    RunFirst(base, w, Poll, es);
    var printed := Run(base, w, [Poll] + es).cur.printed;
    var k :| |Next(base, w, Poll).cur.printed| <= k < |printed| && printed[k] == r;
  }

  /** However long the backlog, polling gets to every matching row past the cursor. */
  lemma {:induction false} PollsReach(base: Filter, w: World, r: Row) returns (es: seq<Event>)
    requires Ordered(w.rows) && base.afterId == 0
    requires r in w.rows && Matches(base, r) && r.id > Max(w.cur.last, 1)
    ensures Prints(base, w, es, r) && forall e :: e in es ==> e == Poll
    decreases r.id - Max(w.cur.last, 1)
  {
    var shown := Select(After(base, w.cur.last), w.rows);
    PollShows(base, w.cur.last, w.rows);
    if r in shown {
      es := [Poll];
      PollPrints(base, w, r);
    } else {
      assert shown[|shown| - 1] in shown;
      es := PollsReach(base, Next(base, w, Poll), r);
      PrintsLater(base, w, es, r);
      es := [Poll] + es;
    }
  }

  /** A new matching row is printed in some continuation, in one of polls alone
      even, exactly when the newest id in the table has not fallen below the cursor
      (and the table does not start empty): otherwise its id is reused. */
  lemma InsertShownIff(base: Filter, w: World, rec: Record)
    requires Ordered(w.rows) && base.afterId == 0 && 0 <= w.cur.last
    requires Matches(base, Row(NextId(w.rows), rec))
    ensures var w', r := Next(base, w, Insert(rec)), Row(NextId(w.rows), rec);
            (exists es :: Prints(base, w', es, r)) <==> NewestId(w.rows) >= Max(w.cur.last, 1)
  {
    var w', r := Next(base, w, Insert(rec)), Row(NextId(w.rows), rec);
    StoreStaysOrdered(w.rows, rec, 0);
    if NewestId(w.rows) >= Max(w.cur.last, 1) {
      var es := PollsReach(base, w', r);
    } else {
      forall es ensures !Prints(base, w', es, r) {
        OldIdsStayHidden(base, w', es);
      }
    }
  }

  lemma NotYetShownStaysHidden(base: Filter, w: World, es: seq<Event>, r: Row)
    requires Ordered(w.rows) && base.afterId == 0 && r !in w.cur.printed && r.id <= Max(w.cur.last, 1)
    ensures r !in Run(base, w, es).cur.printed
  {
    OldIdsStayHidden(base, w, es);
    var printed := Run(base, w, es).cur.printed;
    forall k | 0 <= k < |printed| ensures printed[k] != r {
      if k < |w.cur.printed| {
        assert printed[k] == w.cur.printed[k];
      }
    }
  }

  lemma PrunedOne(r: Row, before: int)
    requires r.rec.ts < before
    ensures Pruned([r], before) == []
  {
    PrunedMembers([r], before);
    NoMembers(Pruned([r], before));
  }

  /** Pruning the newest row lets its id be used again, for a row the follower
      never prints. */
  lemma PruneMakesFollowMiss(base: Filter, n: int, stale: Record, recent: Record, es: seq<Event>)
    requires base.afterId == 0 && Matches(base, Row(1, stale)) && stale.ts < recent.ts
    ensures var rows := [Row(1, stale)];
            var w := World(rows, Tailed(base, n, rows));
            var v := Next(base, Next(base, w, Prune(recent.ts)), Insert(recent));
            && !KeepsNewest(w.rows, recent.ts)
            && v.rows == [Row(1, recent)] && Row(1, recent) !in Run(base, v, es).cur.printed
  {
    TailShows(base, n, [Row(1, stale)]);
    ReuseHides(base, Tailed(base, n, [Row(1, stale)]), stale, recent, es);
  }

  lemma ReuseHides(base: Filter, c: Cursor, stale: Record, recent: Record, es: seq<Event>)
    requires base.afterId == 0 && stale.ts < recent.ts && forall p :: p in c.printed ==> p == Row(1, stale)
    ensures var w := World([Row(1, stale)], c);
            var v := Next(base, Next(base, w, Prune(recent.ts)), Insert(recent));
            v.rows == [Row(1, recent)] && Row(1, recent) !in Run(base, v, es).cur.printed
  {
    PrunedOne(Row(1, stale), recent.ts);
    var v := World([Row(1, recent)], c);
    NotYetShownStaysHidden(base, v, es, Row(1, recent));
  }
}
