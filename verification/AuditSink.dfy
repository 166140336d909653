/** The bounded buffer between tool calls and the audit table. */
module AuditSink {

  import opened Prelude
  import opened AuditStore
  import J = Json
  import X = JsonText
  import N = JsonNumbers
  import R = Redact
  import opened Utf8
  import opened JsonCut

  // ------------------------------------------------------------------ one row

  /** A finished call: which of the known errors its error wraps, and its result as JSON text. */
  datatype Call = Call(
    startedMs: int, namespace: string, server: string, tool: string, caller: string, args: string,
    durationMs: int, err: Option<Failure>, result: Option<CallResult>)

  datatype Failure = Failure(text: string, deadline: bool, circuitOpen: bool)

  datatype CallResult = CallResult(isError: bool, json: string)

  /** The limit on stored payloads, in bytes. */
  function PayloadLimit(option: int): nat {
    if option <= 0 then 8 * 1024 else option
  }

  /** The bytes of a text; of one over the limit as many as fit, wherever in a
      character that is, and an ellipsis. */
  function Truncated(text: string, max: nat): seq<Byte> {
    var enc := Bytes(text);
    if max > 0 && |enc| > max then enc[..max] + CharBytes(ELLIPSIS) else enc
  }

  function StatusOf(c: Call): string {
    match c.err
    case Some(f) => if f.deadline then "timeout" else if f.circuitOpen then "rejected" else "error"
    case None => if c.result.Some? && c.result.value.isError then "tool_error" else "ok"
  }

  function RowOf(scrub: string -> string, option: int, c: Call): Record {
    var max := PayloadLimit(option);
    var res := if c.result.Some? then R.Redacted(scrub, c.result.value.json) else "";
    Record(c.startedMs, c.namespace, c.server, c.tool, c.caller, Truncated(R.Redacted(scrub, c.args), max),
           |Bytes(res)|, Truncated(res, max), c.durationMs, StatusOf(c),
           if c.err.Some? then c.err.value.text else "")
  }

  /** Stored bytes are those of a JSON text of value `v`. */
  ghost predicate ReadsAs(stored: seq<Byte>, v: J.Json) {
    exists text :: stored == Bytes(text) && X.Parse(X.Float64, text) == Some(v)
  }

  /** A text that was cut is JSON no longer. */
  lemma CutIsNotJson(text: string, max: nat, v: J.Json)
    requires 0 < max < |Bytes(text)|
    ensures !ReadsAs(Truncated(text, max), v)
  {
    forall t | Truncated(text, max) == Bytes(t) ensures X.Parse(X.Float64, t).None? {
      EndsInChar(t, Bytes(text)[..max], ELLIPSIS);
      MarkedIsNotJson(X.Float64, t);
    }
  }

  /** The stored form of a payload reads back as its redacted tree, and as nothing
      else, exactly when the bytes of the redacted text are within the limit. */
  lemma StoredIff(scrub: string -> string, raw: string, max: nat, v: J.Json)
    requires max > 0
    ensures ReadsAs(Truncated(R.Redacted(scrub, raw), max), v) <==>
            v == R.Walk(scrub, R.PayloadOf(raw)) && |Bytes(R.Redacted(scrub, raw))| <= max
  {
    var text := R.Redacted(scrub, raw);
    R.RedactedIsJson(scrub, raw);
    if |Bytes(text)| > max {
      CutIsNotJson(text, max, v);
    } else {
      forall t | Bytes(t) == Bytes(text) ensures t == text {
        BytesInjective(t, text);
      }
    }
  }

  /** Arguments are stored as JSON exactly when their redacted text is within the
      byte limit, and the JSON is then the redacted tree, with no secret in it
      unless the scrub itself unmasks one. The tree is that of the arguments where
      they are JSON whose numbers all fit, and their whole text as one string
      otherwise. */
  lemma StoredArgumentsAreRedacted(scrub: string -> string, option: int, c: Call, v: J.Json)
    ensures var tree := R.Walk(scrub, R.PayloadOf(c.args));
            && (ReadsAs(RowOf(scrub, option, c).args, v) <==>
                  v == tree && |Bytes(R.Redacted(scrub, c.args))| <= if option <= 0 then 8192 else option)
            && (R.Clean(tree) <==> !R.SomeLeaf(R.Unmasks(scrub), R.PayloadOf(c.args)))
    ensures R.PayloadOf(c.args) ==
            match (N.AllFit(X.Float64, c.args), X.Parse(X.AnyNumber, c.args))
            case (true, Some(v)) => v
            case _ => J.Str(c.args)
  {
    StoredIff(scrub, c.args, PayloadLimit(option), v);
    R.RedactedIsJson(scrub, c.args);
    N.DecodedIff(X.Float64, c.args);
  }

  /** The recorded size of a result tells whether the stored result is whole: it is
      JSON exactly when the size is within the limit. */
  lemma SizeTellsWhetherWhole(scrub: string -> string, option: int, c: Call, v: J.Json)
    requires c.result.Some?
    ensures var rec := RowOf(scrub, option, c);
            var max := if option <= 0 then 8192 else option;
            && (ReadsAs(rec.result, v) <==>
                  v == R.Walk(scrub, R.PayloadOf(c.result.value.json)) && rec.resultSize <= max)
            && |rec.result| == if rec.resultSize <= max then rec.resultSize else max + 3
  {
    StoredIff(scrub, c.result.value.json, PayloadLimit(option), v);
  }

  /** What a row tells about its call: the status names what went wrong first, the
      error is that of the call, and the rest is copied. */
  lemma RowTells(scrub: string -> string, option: int, c: Call)
    ensures var rec := RowOf(scrub, option, c);
            && (rec.status == "timeout" <==> c.err.Some? && c.err.value.deadline)
            && (rec.status == "rejected" <==> c.err.Some? && !c.err.value.deadline && c.err.value.circuitOpen)
            && (rec.status == "error" <==> c.err.Some? && !c.err.value.deadline && !c.err.value.circuitOpen)
            && (rec.status == "tool_error" <==> c.err.None? && c.result.Some? && c.result.value.isError)
            && (rec.status == "ok" <==> c.err.None? && (c.result.None? || !c.result.value.isError))
            && (c.err.Some? ==> rec.error == c.err.value.text) && (c.err.None? ==> rec.error == "")
            && (c.result.None? ==> rec.result == [] && rec.resultSize == 0)
            && rec.ts == c.startedMs && rec.namespace == c.namespace && rec.server == c.server && rec.tool == c.tool
            && rec.caller == c.caller && rec.durationMs == c.durationMs
  {
    var s := RowOf(scrub, option, c).status;
    assert s in {"timeout", "rejected", "error", "tool_error", "ok"};
    assert "timeout"[0] != "rejected"[0] && |"error"| != |"tool_error"| && |"ok"| == 2;
  }

  // --------------------------------------------------------------- the buffer

  /** The channel and the count of rows that found it full. */
  datatype Box = Box(queue: seq<Record>, dropped: nat)

  function Offered(cap: nat, b: Box, rec: Record): Box {
    if |b.queue| < cap then b.(queue := b.queue + [rec]) else b.(dropped := b.dropped + 1)
  }

  /** The records whose insert did not fail. */
  function Stored(recs: seq<Record>, fails: seq<bool>): seq<Record>
    requires |recs| == |fails|
  {
    if recs == [] then []
    else
      var n := |recs| - 1;
      Stored(recs[..n], fails[..n]) + if fails[n] then [] else [recs[n]]
  }

  function InsertAll(rows: seq<Row>, recs: seq<Record>): seq<Row> {
    if recs == [] then rows else Inserted(InsertAll(rows, recs[..|recs| - 1]), recs[|recs| - 1])
  }

  /** The row the writer holds, if it holds one. */
  function Held(hand: Option<Record>): seq<Record> {
    match hand
    case None => []
    case Some(rec) => [rec]
  }

  /** `hand` is the row the writer has received and not yet inserted. */
  class Sink {
    const store: Store
    const cap: nat
    var ch: seq<Record>
    var hand: Option<Record>
    var dropped: nat
    var closed: bool

    constructor (store: Store, bufferSize: int)
      ensures this.store == store && cap == (if bufferSize <= 0 then 1024 else bufferSize)
      ensures ch == [] && hand == None && dropped == 0 && !closed
    {
      this.store := store;
      this.cap := if bufferSize <= 0 then 1024 else bufferSize;
      ch, hand, dropped, closed := [], None, 0, false;
    }

    /** The rows still to be written. */
    ghost function Pending(): seq<Record>
      reads this
    {
      Held(hand) + ch
    }

    /** Queues the row, or counts it as dropped when the buffer is full. */
    method Observe(rec: Record)
      requires !closed
      modifies this`ch, this`dropped
      ensures Box(ch, dropped) == Offered(cap, old(Box(ch, dropped)), rec)
    {
      if |ch| < cap {
        ch := ch + [rec];
      } else {
        dropped := dropped + 1;
      }
    }

    /** The writer receives the oldest row. */
    method Take()
      requires ch != [] && hand == None
      modifies this`ch, this`hand
      ensures ch == old(ch)[1..] && hand == Some(old(ch)[0])
    {
      hand := Some(ch[0]);
      ch := ch[1..];
    }

    /** The writer inserts the row it holds. */
    method WriteOne(fails: bool)
      requires hand.Some?
      modifies this`hand, store
      ensures hand == None
      ensures store.rows == if fails then old(store.rows) else Inserted(old(store.rows), old(hand).value)
    {
      store.Insert(hand.value, fails);
      hand := None;
    }

    /** One turn of the writer. */
    method WriteNext(fails: bool)
      requires Pending() != []
      modifies this`ch, this`hand, store
      ensures Pending() == old(Pending())[1..]
      ensures store.rows == if fails then old(store.rows) else Inserted(old(store.rows), old(Pending())[0])
    {
      if hand == None {
        Take();
      }
      WriteOne(fails);
    }

    /** Closes the channel once and waits until the writer has emptied it;
        `fails[k]` says whether the insert of the k-th row still to be written fails. */
    method Close(fails: seq<bool>)
      requires |fails| == |Pending()|
      modifies this`ch, this`hand, this`closed, store
      ensures closed
      ensures old(closed) ==> ch == old(ch) && hand == old(hand) && store.rows == old(store.rows)
      ensures !old(closed) ==>
                && ch == [] && hand == None
                && store.rows == InsertAll(old(store.rows), Stored(old(Pending()), fails))
    {
      if closed {
        return;
      }
      closed := true;
      Drain(fails);
    }

    /** The writer goes on until hand and channel are empty. */
    method Drain(fails: seq<bool>)
      requires |fails| == |Pending()|
      modifies this`ch, this`hand, store
      ensures ch == [] && hand == None
      ensures store.rows == InsertAll(old(store.rows), Stored(old(Pending()), fails))
    {
      ghost var waiting := Pending();
      ghost var before := store.rows;
      var k := 0;
      Unwritten(before, waiting, fails);
      while hand.Some? || ch != []
        invariant k <= |waiting| && Pending() == waiting[k..]
        invariant store.rows == Written(before, waiting, fails, k)
        decreases |waiting| - k
      {
        NothingLeft(hand, ch);
        WriteNth(before, waiting, fails, k);
        k := k + 1;
      }
      NothingLeft(hand, ch);
      AllWritten(before, waiting, fails, k);
    }

    /** The turn of the writer that deals with the `k`-th row still waiting at the close. */
    method WriteNth(ghost before: seq<Row>, ghost waiting: seq<Record>, fails: seq<bool>, k: nat)
      requires k <= |waiting| == |fails| && Pending() == waiting[k..] && Pending() != []
      requires store.rows == Written(before, waiting, fails, k)
      modifies this`ch, this`hand, store
      ensures k < |waiting| && Pending() == waiting[k + 1..]
      ensures store.rows == Written(before, waiting, fails, k + 1)
    {
      Remaining(waiting, k);
      StoredStep(before, waiting, fails, k);
      WriteNext(fails[k]);
    }
  }

  /** The table after `k` of the rows have been dealt with. */
  ghost function Written(rows: seq<Row>, recs: seq<Record>, fails: seq<bool>, k: nat): seq<Row>
    requires k <= |recs| == |fails|
  {
    InsertAll(rows, Stored(recs[..k], fails[..k]))
  }

  lemma NothingLeft(hand: Option<Record>, ch: seq<Record>)
    ensures Held(hand) + ch == [] <==> hand == None && ch == []
  {
  }

  lemma Unwritten(rows: seq<Row>, recs: seq<Record>, fails: seq<bool>)
    requires |recs| == |fails|
    ensures Written(rows, recs, fails, 0) == rows && recs[0..] == recs
  {
  }

  lemma AllWritten(rows: seq<Row>, recs: seq<Record>, fails: seq<bool>, k: nat)
    requires k <= |recs| == |fails| && recs[k..] == []
    ensures Written(rows, recs, fails, k) == InsertAll(rows, Stored(recs, fails))
  {
    assert recs[..k] == recs && fails[..k] == fails;
  }

  lemma Remaining(recs: seq<Record>, k: nat)
    requires k <= |recs| && recs[k..] != []
    ensures k < |recs| && recs[k..][0] == recs[k] && recs[k..][1..] == recs[k + 1..]
  {
  }

  lemma StoredStep(rows: seq<Row>, recs: seq<Record>, fails: seq<bool>, k: nat)
    requires k < |recs| == |fails|
    ensures Written(rows, recs, fails, k + 1) ==
            if fails[k] then Written(rows, recs, fails, k) else Inserted(Written(rows, recs, fails, k), recs[k])
  {
    assert recs[..k + 1][..k] == recs[..k] && fails[..k + 1][..k] == fails[..k];
    var s := Stored(recs[..k], fails[..k]);
    assert s + [] == s;
    assert (s + [recs[k]])[..|s|] == s;
  }

  // ----------------------------------------------------------------- whole runs

  datatype Event = Observe(rec: Record) | Take | Write(fails: bool) | Close

  /** The sink with the row its writer holds, what the writer has dealt with so far
      and how each insert went. */
  datatype World = World(
    cap: nat, box: Box, hand: Option<Record>, taken: seq<Record>, fails: seq<bool>, closed: bool)

  function Start(cap: nat): World {
    World(cap, Box([], 0), None, [], [], false)
  }

  /** Nothing may be observed after closing; a closed sink still drains. */
  function Next(w: World, e: Event): Option<World> {
    match e
    case Observe(rec) => if w.closed then None else Some(w.(box := Offered(w.cap, w.box, rec)))
    case Take =>
      if w.box.queue == [] || w.hand.Some? then None
      else Some(w.(box := w.box.(queue := w.box.queue[1..]), hand := Some(w.box.queue[0])))
    case Write(fails) =>
      if w.hand.None? then None
      else Some(w.(hand := None, taken := w.taken + [w.hand.value], fails := w.fails + [fails]))
    case Close => Some(w.(closed := true))
  }

  function Run(w: World, es: seq<Event>): Option<World> {
    if es == [] then Some(w)
    else match Run(w, es[..|es| - 1])
      case None => None
      case Some(v) => Next(v, es[|es| - 1])
  }

  /** The records observed, in order, each with whether it found room. */
  function Observed(cap: nat, es: seq<Event>): seq<(Record, bool)> {
    if es == [] then []
    else
      var n := |es| - 1;
      var rest := Observed(cap, es[..n]);
      match (es[n], Run(Start(cap), es[..n]))
      case (Observe(rec), Some(w)) => rest + [(rec, |w.box.queue| < cap)]
      case _ => rest
  }

  /** The observed records that found room (`true`), or that did not. */
  function Having(seen: seq<(Record, bool)>, roomy: bool): seq<Record> {
    if seen == [] then []
    else
      var n := |seen| - 1;
      Having(seen[..n], roomy) + if seen[n].1 == roomy then [seen[n].0] else []
  }

  function Failures(fails: seq<bool>): nat {
    if fails == [] then 0
    else Failures(fails[..|fails| - 1]) + if fails[|fails| - 1] then 1 else 0
  }

  lemma {:induction false} StoredCount(recs: seq<Record>, fails: seq<bool>)
    requires |recs| == |fails|
    ensures |Stored(recs, fails)| + Failures(fails) == |recs|
  {
    if recs != [] {
      StoredCount(recs[..|recs| - 1], fails[..|recs| - 1]);
    }
  }

  lemma {:induction false} HavingCount(seen: seq<(Record, bool)>)
    ensures |Having(seen, true)| + |Having(seen, false)| == |seen|
  {
    if seen != [] {
      HavingCount(seen[..|seen| - 1]);
    }
  }

  lemma HavingSnoc(seen: seq<(Record, bool)>, rec: Record, room: bool, roomy: bool)
    ensures Having(seen + [(rec, room)], roomy) == Having(seen, roomy) + if room == roomy then [rec] else []
  {
    assert (seen + [(rec, room)])[..|seen|] == seen;
  }

  ghost predicate Inv(w: World, seen: seq<(Record, bool)>) {
    && |w.box.queue| <= w.cap
    && |w.taken| == |w.fails|
    && w.taken + (Held(w.hand) + w.box.queue) == Having(seen, true)
    && w.box.dropped == |Having(seen, false)|
  }

  lemma {:induction false} RunInv(cap: nat, es: seq<Event>)
    requires Run(Start(cap), es).Some?
    ensures Run(Start(cap), es).value.cap == cap && Inv(Run(Start(cap), es).value, Observed(cap, es))
  {
    if es != [] {
      var n := |es| - 1;
      RunInv(cap, es[..n]);
      var v := Run(Start(cap), es[..n]).value;
      var seen := Observed(cap, es[..n]);
      match es[n]
      case Observe(rec) =>
        var room := |v.box.queue| < cap;
        HavingSnoc(seen, rec, room, true);
        HavingSnoc(seen, rec, room, false);
        AppendAssoc(v.taken, Held(v.hand) + v.box.queue, [rec]);
        AppendAssoc(Held(v.hand), v.box.queue, [rec]);
      case Take =>
        assert v.box.queue == [v.box.queue[0]] + v.box.queue[1..];
        assert [] + v.box.queue == v.box.queue;
      case Write(fails) =>
        AppendAssoc(v.taken, [v.hand.value], v.box.queue);
        assert [] + v.box.queue == v.box.queue;
      case Close =>
    }
  }

  /** Every observed call is counted exactly once, as stored, failed, in the
      writer's hand, still queued or dropped. Rows that found room leave the buffer in the order they entered
      it, those that did not are the ones dropped, and the buffer never overflows. */
  lemma EveryCallCountedOnce(cap: nat, es: seq<Event>)
    requires Run(Start(cap), es).Some?
    ensures var w := Run(Start(cap), es).value;
            var seen := Observed(cap, es);
            && |w.taken| == |w.fails| && |w.box.queue| <= cap
            && |Stored(w.taken, w.fails)| + Failures(w.fails) + |Held(w.hand)| + |w.box.queue| + w.box.dropped == |seen|
            && w.taken + (Held(w.hand) + w.box.queue) == Having(seen, true)
            && w.box.dropped == |Having(seen, false)|
  {
    RunInv(cap, es);
    var w := Run(Start(cap), es).value;
    StoredCount(w.taken, w.fails);
    HavingCount(Observed(cap, es));
  }

  /** Rows under consecutive ids. */
  function Numbered(first: int, recs: seq<Record>): seq<Row> {
    if recs == [] then []
    else Numbered(first, recs[..|recs| - 1]) + [Row(first + |recs| - 1, recs[|recs| - 1])]
  }

  lemma {:induction false} NumberedIds(first: int, recs: seq<Record>)
    ensures |Numbered(first, recs)| == |recs|
    ensures recs != [] ==> Numbered(first, recs)[|recs| - 1].id == first + |recs| - 1
  {
    if recs != [] {
      NumberedIds(first, recs[..|recs| - 1]);
    }
  }

  /** Inserting appends the stored records in order under consecutive fresh ids. */
  lemma {:induction false} InsertAllAppends(rows: seq<Row>, recs: seq<Record>)
    ensures InsertAll(rows, recs) == rows + Numbered(NextId(rows), recs)
  {
    if recs == [] {
      assert rows + [] == rows;
    } else {
      var n := |recs| - 1;
      var before := Numbered(NextId(rows), recs[..n]);
      InsertAllAppends(rows, recs[..n]);
      NumberedIds(NextId(rows), recs[..n]);
      NextAfter(rows, before);
      AppendAssoc(rows, before, [Row(NextId(rows) + n, recs[n])]);
    }
  }

  lemma NextAfter(rows: seq<Row>, more: seq<Row>)
    ensures NextId(rows + more) == if more == [] then NextId(rows) else more[|more| - 1].id + 1
  {
    if more == [] {
      assert rows + more == rows;
    }
  }

  lemma RunSnoc(w: World, es: seq<Event>, e: Event)
    ensures Run(w, es + [e]) == match Run(w, es) case None => None case Some(v) => Next(v, e)
  {
    assert (es + [e])[..|es|] == es;
  }

  lemma {:induction false} ClosedIff(cap: nat, es: seq<Event>)
    requires Run(Start(cap), es).Some?
    ensures Run(Start(cap), es).value.closed <==> Close in es
  {
    if es != [] {
      ClosedIff(cap, es[..|es| - 1]);
      assert es == es[..|es| - 1] + [es[|es| - 1]];
    }
  }

  /** A call can be observed at any moment before the sink is closed, full or not, and
      at none after. */
  lemma ObservableIff(cap: nat, es: seq<Event>, rec: Record)
    requires Run(Start(cap), es).Some?
    ensures Run(Start(cap), es + [Observe(rec)]).Some? <==> Close !in es
  {
    ClosedIff(cap, es);
    RunSnoc(Start(cap), es, Observe(rec));
  }

  /** The events of a burst of calls. */
  function Burst(recs: seq<Record>): seq<Event> {
    if recs == [] then [] else Burst(recs[..|recs| - 1]) + [Observe(recs[|recs| - 1])]
  }

  /** Of a burst of calls with no writer about, the first that fit the buffer are queued
      and the rest counted as dropped. */
  lemma {:induction false} BurstFills(cap: nat, recs: seq<Record>)
    ensures Run(Start(cap), Burst(recs)).Some? && Run(Start(cap), Burst(recs)).value.cap == cap
    ensures var w := Run(Start(cap), Burst(recs)).value;
            && w.hand == None && !w.closed && w.taken == []
            && w.box.queue == (if |recs| <= cap then recs else recs[..cap])
            && w.box.dropped == (if |recs| <= cap then 0 else |recs| - cap)
  {
    if recs != [] {
      var n := |recs| - 1;
      BurstFills(cap, recs[..n]);
      RunSnoc(Start(cap), Burst(recs[..n]), Observe(recs[n]));
      if n < cap {
        assert recs == recs[..n] + [recs[n]];
      } else {
        assert recs[..n][..cap] == recs[..cap];
        assert n == cap ==> recs[..n] == recs[..cap];
      }
    }
  }

  /** Rows still to be dealt with. */
  function Left(w: World): nat {
    2 * |w.box.queue| + |Held(w.hand)|
  }

  /** The writer by itself can empty a sink at any moment, closed or not, with every
      insert going well. */
  lemma {:induction false} SinkCanDrain(cap: nat, es: seq<Event>) returns (more: seq<Event>)
    requires Run(Start(cap), es).Some?
    ensures forall e :: e in more ==> e == Take || e == Write(false)
    ensures Run(Start(cap), es + more).Some?
    ensures var w, v := Run(Start(cap), es).value, Run(Start(cap), es + more).value;
            && v.box.queue == [] && v.hand == None
            && v.taken == w.taken + (Held(w.hand) + w.box.queue) && Failures(v.fails) == Failures(w.fails)
    decreases Left(Run(Start(cap), es).value)
  {
    var w := Run(Start(cap), es).value;
    if Held(w.hand) + w.box.queue == [] {
      more := [];
      assert es + more == es && w.taken + [] == w.taken;
      assert w.box.queue == [] && w.hand == None;
    } else {
      var e := if w.hand.Some? then Write(false) else Take;
      RunSnoc(Start(cap), es, e);
      more := SinkCanDrain(cap, es + [e]);
      DrainStep(w, e, Run(Start(cap), es + [e]).value);
      assert es + ([e] + more) == es + [e] + more;
      more := [e] + more;
    }
  }

  lemma DrainStep(w: World, e: Event, v: World)
    requires Next(w, e) == Some(v) && (e == Write(false) || e == Take)
    ensures v.taken + (Held(v.hand) + v.box.queue) == w.taken + (Held(w.hand) + w.box.queue)
    ensures Failures(v.fails) == Failures(w.fails)
  {
    if e == Take {
      assert w.box.queue == [w.box.queue[0]] + w.box.queue[1..];
    } else {
      AppendAssoc(w.taken, [w.hand.value], w.box.queue);
      assert [] + w.box.queue == w.box.queue;
      assert (w.fails + [false])[..|w.fails|] == w.fails;
    }
  }

  /** Once a sink is closed and drained, what the table gained is exactly the
      accepted rows whose insert worked, in acceptance order. */
  lemma DrainedSinkStoredEverything(cap: nat, es: seq<Event>, rows: seq<Row>)
    requires Run(Start(cap), es).Some?
    requires Run(Start(cap), es).value.box.queue == [] && Run(Start(cap), es).value.hand == None
    ensures var w := Run(Start(cap), es).value;
            var accepted := Having(Observed(cap, es), true);
            && |w.fails| == |accepted|
            && var stored := Stored(accepted, w.fails);
               && |stored| + Failures(w.fails) + w.box.dropped == |Observed(cap, es)|
               && InsertAll(rows, stored) == rows + Numbered(NextId(rows), stored)
  {
    EveryCallCountedOnce(cap, es);
    var w := Run(Start(cap), es).value;
    assert w.taken + ([] + []) == w.taken;
    InsertAllAppends(rows, Stored(w.taken, w.fails));
  }
}
