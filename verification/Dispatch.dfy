/** Tool calls going through the breaker and three counting semaphores, many at
    a time. Every locked section and every channel operation is one step. */
module Dispatch {

  import opened Prelude
  import B = Breaker

  /** Concurrency limits; zero or less means unlimited. */
  datatype Limits = Limits(
    maxConcurrent: int, perNamespace: int, perServer: int,
    namespaceOverride: map<string, int>, serverOverride: map<string, int>)

  /** The namespace and upstream a call is for. */
  datatype Target = Target(ns: string, id: string)

  datatype Sem = Global | OfNamespace(ns: string) | OfServer(id: string)

  function NamespaceLimit(l: Limits, ns: string): int {
    if ns in l.namespaceOverride && l.namespaceOverride[ns] > 0 then l.namespaceOverride[ns] else l.perNamespace
  }

  function ServerLimit(l: Limits, id: string): int {
    if id in l.serverOverride && l.serverOverride[id] > 0 then l.serverOverride[id] else l.perServer
  }

  function Limit(l: Limits, s: Sem): int {
    match s
    case Global => l.maxConcurrent
    case OfNamespace(ns) => NamespaceLimit(l, ns)
    case OfServer(id) => ServerLimit(l, id)
  }

  /** The semaphores of a call in the order they are acquired. */
  function SemAt(t: Target, k: nat): Sem {
    if k == 0 then Global else if k == 1 then OfNamespace(t.ns) else OfServer(t.id)
  }

  datatype Outcome = Ok | NotReady | Error | CapacityTimeout | CircuitOpen

  datatype Stage =
    | Arrived
    | Queued(held: nat)                          // waiting for semaphore `held`
    | Calling                                    // the upstream has the call
    | Returned(outcome: Outcome)                 // outcome not yet reported to the breaker
    | Unwinding(held: nat, outcome: Outcome)     // deferred releases
    | Done(outcome: Outcome)

  datatype Call = Call(target: Target, stage: Stage)

  datatype Config = Config(limits: Limits, breaker: B.Config)

  /** All calls ever made, the fill of each semaphore, the breakers and the clock. */
  datatype Gate = Gate(calls: seq<Call>, fill: map<Sem, nat>, breakers: map<string, B.Brk>, now: int)

  const START := Gate([], map[], map[], 0)

  function Fill(g: Gate, s: Sem): nat { if s in g.fill then g.fill[s] else 0 }

  function BreakerOf(g: Gate, id: string): B.Brk {
    if id in g.breakers then g.breakers[id] else B.CLOSED
  }

  datatype Step =
    | Arrive(target: Target)
    | Admit(i: nat)
    | Acquire(i: nat)
    | Expire(i: nat)                     // the context ends while waiting for a permit
    | Return(i: nat, outcome: Outcome)   // CallTool returns
    | Report(i: nat)
    | Release(i: nat)
    | Tick(d: nat)

  function At(g: Gate, i: nat, stage: Stage): Gate
    requires i < |g.calls|
  {
    g.(calls := g.calls[i := g.calls[i].(stage := stage)])
  }

  function Reported(c: Config, g: Gate, id: string, o: Outcome): Gate {
    var b := BreakerOf(g, id);
    match o
    case Ok => g.(breakers := g.breakers[id := B.Succeeded(c.breaker, b)])
    case Error => g.(breakers := g.breakers[id := B.FailedAt(c.breaker, b, g.now)])
    case _ => g
  }

  function Advance(c: Config, g: Gate, step: Step): Option<Gate> {
    match step
    case Arrive(t) => Some(g.(calls := g.calls + [Call(t, Arrived)]))
    case Tick(d) => Some(g.(now := g.now + d))
    case Admit(i) =>
      if i >= |g.calls| || g.calls[i].stage != Arrived then None
      else
        var id := g.calls[i].target.id;
        var b := BreakerOf(g, id);
        if B.Allows(c.breaker, b, g.now)
        then Some(At(g, i, Queued(0)).(breakers := g.breakers[id := B.Asked(c.breaker, b, g.now)]))
        else Some(At(g, i, Done(CircuitOpen)))
    case Acquire(i) =>
      if i >= |g.calls| || !g.calls[i].stage.Queued? then None
      else
        var h := g.calls[i].stage.held;
        var s := SemAt(g.calls[i].target, h);
        var next := if h < 2 then Queued(h + 1) else Calling;
        if Limit(c.limits, s) <= 0 then Some(At(g, i, next))
        else if Fill(g, s) < Limit(c.limits, s) then Some(At(g, i, next).(fill := g.fill[s := Fill(g, s) + 1]))
        else None
    case Expire(i) =>
      if i >= |g.calls| || !g.calls[i].stage.Queued? then None
      else
        var h := g.calls[i].stage.held;
        if Limit(c.limits, SemAt(g.calls[i].target, h)) <= 0 then None
        else Some(At(g, i, Unwinding(h, CapacityTimeout)))
    case Return(i, o) =>
      if i >= |g.calls| || g.calls[i].stage != Calling || o !in {Ok, NotReady, Error} then None
      else Some(At(g, i, Returned(o)))
    case Report(i) =>
      if i >= |g.calls| || !g.calls[i].stage.Returned? then None
      else
        var o := g.calls[i].stage.outcome;
        Some(Reported(c, At(g, i, Unwinding(3, o)), g.calls[i].target.id, o))
    case Release(i) =>
      if i >= |g.calls| || !g.calls[i].stage.Unwinding? then None
      else
        var u := g.calls[i].stage;
        if u.held == 0 then Some(At(g, i, Done(u.outcome)))
        else
          var s := SemAt(g.calls[i].target, u.held - 1);
          var g' := At(g, i, Unwinding(u.held - 1, u.outcome));
          if Limit(c.limits, s) <= 0 then Some(g')
          else if Fill(g, s) > 0 then Some(g'.(fill := g.fill[s := Fill(g, s) - 1]))
          else None
  }

  function Exec(c: Config, g: Gate, steps: seq<Step>): Option<Gate> {
    if steps == [] then Some(g)
    else match Exec(c, g, steps[..|steps| - 1])
      case None => None
      case Some(h) => Advance(c, h, steps[|steps| - 1])
  }

  /** Permits a call holds at a stage. */
  function Held(s: Stage): nat {
    match s
    case Queued(h) => h
    case Calling => 3
    case Returned(_) => 3
    case Unwinding(h, _) => h
    case _ => 0
  }

  predicate Holds(call: Call, s: Sem) {
    match s
    case Global => Held(call.stage) >= 1
    case OfNamespace(ns) => Held(call.stage) >= 2 && call.target.ns == ns
    case OfServer(id) => Held(call.stage) >= 3 && call.target.id == id
  }

  /** Calls holding a permit of a semaphore. */
  function Holders(calls: seq<Call>, s: Sem): nat {
    if calls == [] then 0
    else Holders(calls[..|calls| - 1], s) + if Holds(calls[|calls| - 1], s) then 1 else 0
  }

  /** Calls the upstreams have right now, of those a semaphore governs. */
  function InFlight(calls: seq<Call>, s: Sem): nat {
    if calls == [] then 0
    else
      var last := calls[|calls| - 1];
      InFlight(calls[..|calls| - 1], s) + if last.stage == Calling && Holds(last, s) then 1 else 0
  }

  predicate StageOk(s: Stage) {
    && (s.Queued? ==> s.held <= 2)
    && (s.Unwinding? ==> s.held <= 3)
    && (s.Returned? ==> s.outcome in {Ok, NotReady, Error})
  }

  /** Each bounded semaphore is filled by exactly the calls holding it, within its limit. */
  ghost predicate PermitsFit(c: Config, g: Gate, s: Sem) {
    if Limit(c.limits, s) > 0
    then Fill(g, s) == Holders(g.calls, s) && Fill(g, s) <= Limit(c.limits, s)
    else Fill(g, s) == 0
  }

  ghost predicate Inv(c: Config, g: Gate) {
    && (forall i :: 0 <= i < |g.calls| ==> StageOk(g.calls[i].stage))
    && (forall s :: PermitsFit(c, g, s))
  }

  lemma {:induction false} HoldersUpdate(calls: seq<Call>, i: nat, call: Call, s: Sem)
    requires i < |calls|
    ensures Holders(calls[i := call], s) + (if Holds(calls[i], s) then 1 else 0)
         == Holders(calls, s) + (if Holds(call, s) then 1 else 0)
  {
    var n := |calls| - 1;
    if i == n {
      assert calls[i := call][..n] == calls[..n];
    } else {
      assert calls[i := call][..n] == calls[..n][i := call];
      HoldersUpdate(calls[..n], i, call, s);
    }
  }

  lemma AcquireFits(c: Config, g: Gate, i: nat, g': Gate, s: Sem)
    requires Inv(c, g) && Advance(c, g, Acquire(i)) == Some(g')
    ensures PermitsFit(c, g', s)
  {
    assert PermitsFit(c, g, s);
    HoldersUpdate(g.calls, i, g'.calls[i], s);
  }

  lemma ReleaseFits(c: Config, g: Gate, i: nat, g': Gate, s: Sem)
    requires Inv(c, g) && Advance(c, g, Release(i)) == Some(g')
    ensures PermitsFit(c, g', s)
  {
    assert PermitsFit(c, g, s);
    HoldersUpdate(g.calls, i, g'.calls[i], s);
  }

  lemma ReportFits(c: Config, g: Gate, i: nat, g': Gate, s: Sem)
    requires Inv(c, g) && Advance(c, g, Report(i)) == Some(g')
    ensures PermitsFit(c, g', s)
  {
    assert PermitsFit(c, g, s);
    HoldersUpdate(g.calls, i, g'.calls[i], s);
  }

  lemma OtherFits(c: Config, g: Gate, step: Step, g': Gate, s: Sem)
    requires Inv(c, g) && Advance(c, g, step) == Some(g') && !step.Acquire? && !step.Release? && !step.Report?
    ensures PermitsFit(c, g', s)
  {
    assert PermitsFit(c, g, s);
    if step.Arrive? {
      assert g'.calls[..|g.calls|] == g.calls;
    } else if !step.Tick? {
      HoldersUpdate(g.calls, step.i, g'.calls[step.i], s);
    }
  }

  lemma InvStep(c: Config, g: Gate, step: Step, g': Gate)
    requires Inv(c, g) && Advance(c, g, step) == Some(g')
    ensures Inv(c, g')
  {
    forall s ensures PermitsFit(c, g', s) {
      match step
      case Acquire(i) => AcquireFits(c, g, i, g', s);
      case Release(i) => ReleaseFits(c, g, i, g', s);
      case Report(i) => ReportFits(c, g, i, g', s);
      case _ => OtherFits(c, g, step, g', s);
    }
  }

  lemma {:induction false} InvAlways(c: Config, g: Gate, steps: seq<Step>)
    requires Inv(c, g) && Exec(c, g, steps).Some?
    ensures Inv(c, Exec(c, g, steps).value)
  {
    if steps != [] {
      var before := steps[..|steps| - 1];
      InvAlways(c, g, before);
      InvStep(c, Exec(c, g, before).value, steps[|steps| - 1], Exec(c, g, steps).value);
    }
  }

  /** A gate reachable from an empty one. */
  ghost predicate Reachable(c: Config, g: Gate) {
    exists steps :: Exec(c, START, steps) == Some(g)
  }

  lemma ReachableInv(c: Config, g: Gate)
    requires Reachable(c, g)
    ensures Inv(c, g)
  {
    var steps :| Exec(c, START, steps) == Some(g);
    InvAlways(c, START, steps);
  }

  lemma {:induction false} InFlightHold(calls: seq<Call>, s: Sem)
    ensures InFlight(calls, s) <= Holders(calls, s)
  {
    if calls != [] {
      InFlightHold(calls[..|calls| - 1], s);
    }
  }

  lemma {:induction false} NoHolders(calls: seq<Call>, s: Sem)
    requires forall i :: 0 <= i < |calls| ==> !Holds(calls[i], s)
    ensures Holders(calls, s) == 0
  {
    if calls != [] {
      NoHolders(calls[..|calls| - 1], s);
    }
  }

  /** Permit conservation over any run: a bounded semaphore holds exactly one
      permit per holding call, never exceeds its limit, bounds the calls in
      flight it governs, and is empty once every call has finished, on whatever
      exit path; an unlimited one is never touched. */
  lemma PermitsConserved(c: Config, g: Gate, s: Sem)
    requires Reachable(c, g)
    ensures Limit(c.limits, s) > 0 ==>
              Fill(g, s) == Holders(g.calls, s) && InFlight(g.calls, s) <= Fill(g, s) <= Limit(c.limits, s)
    ensures Limit(c.limits, s) <= 0 ==> Fill(g, s) == 0
    ensures (forall i :: 0 <= i < |g.calls| ==> g.calls[i].stage.Done?) ==> Fill(g, s) == 0
  {
    ReachableInv(c, g);
    assert PermitsFit(c, g, s);
    InFlightHold(g.calls, s);
    if forall i :: 0 <= i < |g.calls| ==> g.calls[i].stage.Done? {
      NoHolders(g.calls, s);
    }
  }

  // -------------------------------------------------------- what a call comes to

  ghost function OutcomeAt(s: Stage): Option<Outcome> {
    match s
    case Returned(o) => Some(o)
    case Unwinding(_, o) => Some(o)
    case Done(o) => Some(o)
    case _ => None
  }

  /** An outcome the steps of call `i` account for. */
  ghost predicate Explained(steps: seq<Step>, i: nat, o: Outcome) {
    || (o == CircuitOpen && Admit(i) in steps && Expire(i) !in steps && forall r :: Return(i, r) !in steps)
    || (o == CapacityTimeout && Expire(i) in steps && forall r :: Return(i, r) !in steps)
    || (Return(i, o) in steps && Expire(i) !in steps)
  }

  lemma OutcomeStep(c: Config, g: Gate, step: Step, g': Gate, i: nat)
    requires Advance(c, g, step) == Some(g') && i < |g'.calls|
    ensures i < |g.calls| && OutcomeAt(g.calls[i].stage).Some? ==> OutcomeAt(g'.calls[i].stage) == OutcomeAt(g.calls[i].stage)
    ensures (i < |g.calls| && OutcomeAt(g.calls[i].stage).Some?) || i >= |g.calls| ==> step != Expire(i) && forall r :: step != Return(i, r)
    ensures i < |g.calls| && OutcomeAt(g.calls[i].stage).None? ==>
              && (step == Expire(i) ==> OutcomeAt(g'.calls[i].stage) == Some(CapacityTimeout))
              && (forall r :: step == Return(i, r) ==> OutcomeAt(g'.calls[i].stage) == Some(r))
              && (OutcomeAt(g'.calls[i].stage).Some? ==>
                    || (step == Admit(i) && OutcomeAt(g'.calls[i].stage) == Some(CircuitOpen))
                    || step == Expire(i)
                    || step == Return(i, OutcomeAt(g'.calls[i].stage).value))
    ensures i >= |g.calls| ==> OutcomeAt(g'.calls[i].stage).None?
  {
  }

  lemma {:induction false} NoOutcomeYet(c: Config, steps: seq<Step>, i: nat)
    requires Exec(c, START, steps).Some?
    requires var g := Exec(c, START, steps).value; i < |g.calls| ==> OutcomeAt(g.calls[i].stage).None?
    ensures Expire(i) !in steps && forall r :: Return(i, r) !in steps
  {
    if steps != [] {
      var before, step := steps[..|steps| - 1], steps[|steps| - 1];
      var g, g' := Exec(c, START, before).value, Exec(c, START, steps).value;
      CallsStay(c, g, step, g', i);
      if i < |g'.calls| {
        OutcomeStep(c, g, step, g', i);
      }
      NoOutcomeYet(c, before, i);
      SplitLast(steps);
    }
  }

  lemma CallsStay(c: Config, g: Gate, step: Step, g': Gate, i: nat)
    requires Advance(c, g, step) == Some(g')
    ensures |g.calls| <= |g'.calls|
    ensures i >= |g'.calls| ==> step != Expire(i) && forall r :: step != Return(i, r)
  {
  }

  lemma SplitLast(steps: seq<Step>)
    requires steps != []
    ensures forall s :: s in steps <==> s in steps[..|steps| - 1] || s == steps[|steps| - 1]
  {
    assert steps == steps[..|steps| - 1] + [steps[|steps| - 1]];
  }

  /** In every run a call comes to what the upstream returned for it, to a timeout if
      its context ended while it waited, or to an open circuit if it was not let
      through, and to nothing else. */
  lemma {:induction false} OutcomesAreExplained(c: Config, steps: seq<Step>, i: nat)
    requires Exec(c, START, steps).Some?
    requires var g := Exec(c, START, steps).value; i < |g.calls| && OutcomeAt(g.calls[i].stage).Some?
    ensures Explained(steps, i, OutcomeAt(Exec(c, START, steps).value.calls[i].stage).value)
  {
    var before, step := steps[..|steps| - 1], steps[|steps| - 1];
    var g, g' := Exec(c, START, before).value, Exec(c, START, steps).value;
    OutcomeStep(c, g, step, g', i);
    SplitLast(steps);
    if i < |g.calls| && OutcomeAt(g.calls[i].stage).Some? {
      OutcomesAreExplained(c, before, i);
    } else {
      NoOutcomeYet(c, before, i);
    }
  }

  // ------------------------------------------------ the limits, spelled out

  /** The calls the upstreams have right now. */
  ghost function Calls(g: Gate): set<nat> {
    set i: nat | i < |g.calls| && g.calls[i].stage == Calling
  }

  ghost function OnServer(g: Gate, id: string): set<nat> {
    set i: nat | i < |g.calls| && g.calls[i].target.id == id
  }

  ghost function OnNamespace(g: Gate, ns: string): set<nat> {
    set i: nat | i < |g.calls| && g.calls[i].target.ns == ns
  }

  /** The calls past the first `k` waits that have not yet given back what they got there. */
  ghost function Past(g: Gate, k: nat): set<nat> {
    set i: nat | i < |g.calls| &&
      match g.calls[i].stage
      case Queued(held) => held >= k
      case Calling => true
      case Returned(_) => true
      case Unwinding(held, _) => held >= k
      case _ => false
  }

  /** Call `i` waits for its `k`-th permit. */
  predicate Waits(g: Gate, i: nat, k: nat) {
    i < |g.calls| && g.calls[i].stage == Queued(k)
  }

  /** A semaphore of capacity `n`: its fill is the number of calls in `holders`, never
      more than `n`, and one of `waiting` can go on exactly while there is room. None at
      all where `n` is not positive. */
  ghost predicate Governs(c: Config, g: Gate, fill: nat, n: int, holders: set<nat>, waiting: set<nat>) {
    if n > 0
    then fill == |holders| <= n && forall i :: i in waiting ==> (Advance(c, g, Acquire(i)).Some? <==> |holders| < n)
    else fill == 0 && forall i :: i in waiting ==> Advance(c, g, Acquire(i)).Some?
  }

  lemma {:induction false} HoldersAre(calls: seq<Call>, s: Sem)
    ensures Holders(calls, s) == |set i: nat | i < |calls| && Holds(calls[i], s)|
  {
    var all := set i: nat | i < |calls| && Holds(calls[i], s);
    if calls == [] {
      assert all == {};
    } else {
      var n := |calls| - 1;
      HoldersAre(calls[..n], s);
      var before := set i: nat | i < |calls[..n]| && Holds(calls[..n][i], s);
      OneMoreHolder(all, before, n, Holds(calls[n], s));
    }
  }

  lemma OneMoreHolder(all: set<nat>, before: set<nat>, n: nat, more: bool)
    requires forall i :: i in all <==> i in before || (i == n && more)
    requires n !in before
    ensures |all| == |before| + if more then 1 else 0
  {
    assert all == before + if more then {n} else {};
  }

  lemma GovernedBy(c: Config, g: Gate, s: Sem, k: nat, holders: set<nat>, waiting: set<nat>)
    requires Reachable(c, g) && k <= 2
    requires holders == set i: nat | i < |g.calls| && Holds(g.calls[i], s)
    requires forall i :: i in waiting ==> Waits(g, i, k) && SemAt(g.calls[i].target, k) == s
    ensures Governs(c, g, Fill(g, s), Limit(c.limits, s), holders, waiting)
  {
    PermitsConserved(c, g, s);
    HoldersAre(g.calls, s);
  }

  /** At every moment of every run an upstream has no more calls in flight than its own
      limit where one is set, and than the common one otherwise; its permits are those
      of the calls that have got past all three waits; and a call waits for one only
      while they are all taken. */
  lemma ServerPermits(c: Config, g: Gate, id: string)
    requires Reachable(c, g)
    ensures var own := id in c.limits.serverOverride && c.limits.serverOverride[id] > 0;
            var n := if own then c.limits.serverOverride[id] else c.limits.perServer;
            && Governs(c, g, Fill(g, OfServer(id)), n, Past(g, 3) * OnServer(g, id),
                       set i | i in OnServer(g, id) && Waits(g, i, 2))
            && (n > 0 ==> |Calls(g) * OnServer(g, id)| <= n)
  {
    ReachableInv(c, g);
    var holders := set i: nat | i < |g.calls| && Holds(g.calls[i], OfServer(id));
    assert holders == Past(g, 3) * OnServer(g, id);
    GovernedBy(c, g, OfServer(id), 2, holders, set i | i in OnServer(g, id) && Waits(g, i, 2));
    Within(Calls(g) * OnServer(g, id), holders);
  }

  /** The same of a namespace, whose permit comes second. */
  lemma NamespacePermits(c: Config, g: Gate, ns: string)
    requires Reachable(c, g)
    ensures var own := ns in c.limits.namespaceOverride && c.limits.namespaceOverride[ns] > 0;
            var n := if own then c.limits.namespaceOverride[ns] else c.limits.perNamespace;
            && Governs(c, g, Fill(g, OfNamespace(ns)), n, Past(g, 2) * OnNamespace(g, ns),
                       set i | i in OnNamespace(g, ns) && Waits(g, i, 1))
            && (n > 0 ==> |Calls(g) * OnNamespace(g, ns)| <= n)
  {
    ReachableInv(c, g);
    var holders := set i: nat | i < |g.calls| && Holds(g.calls[i], OfNamespace(ns));
    assert holders == Past(g, 2) * OnNamespace(g, ns);
    GovernedBy(c, g, OfNamespace(ns), 1, holders, set i | i in OnNamespace(g, ns) && Waits(g, i, 1));
    Within(Calls(g) * OnNamespace(g, ns), holders);
  }

  /** And of the whole gateway, whose permit comes first. */
  lemma GlobalPermits(c: Config, g: Gate)
    requires Reachable(c, g)
    ensures var n := c.limits.maxConcurrent;
            && Governs(c, g, Fill(g, Global), n, Past(g, 1), set i: nat | i < |g.calls| && Waits(g, i, 0))
            && (n > 0 ==> |Calls(g)| <= n)
  {
    ReachableInv(c, g);
    var holders := set i: nat | i < |g.calls| && Holds(g.calls[i], Global);
    assert holders == Past(g, 1);
    GovernedBy(c, g, Global, 0, holders, set i: nat | i < |g.calls| && Waits(g, i, 0));
    Within(Calls(g), holders);
  }

  lemma Within(a: set<nat>, b: set<nat>)
    requires a <= b
    ensures |a| <= |b|
  {
    assert b == a + (b - a);
  }

  /** The step a call can take by itself, waiting aside. */
  function OwnStep(g: Gate, i: nat): Step
    requires i < |g.calls|
  {
    match g.calls[i].stage
    case Arrived => Admit(i)
    case Queued(_) => Acquire(i)
    case Calling => Return(i, Ok)
    case Returned(_) => Report(i)
    case Unwinding(_, _) => Release(i)
    case Done(_) => Tick(0)
  }

  /** An unfinished call that has got as far as possible: no other call queues
      with more permits. */
  lemma {:induction false} Foremost(calls: seq<Call>, j: nat) returns (i: nat)
    requires j < |calls| && calls[j].stage.Queued?
    ensures i < |calls| && calls[i].stage.Queued?
    ensures forall k :: 0 <= k < |calls| && calls[k].stage.Queued? ==> calls[k].stage.held <= calls[i].stage.held
  {
    i := j;
    for k := 0 to |calls|
      invariant i < |calls| && calls[i].stage.Queued?
      invariant forall l :: 0 <= l < k && calls[l].stage.Queued? ==> calls[l].stage.held <= calls[i].stage.held
    {
      if calls[k].stage.Queued? && calls[k].stage.held > calls[i].stage.held {
        i := k;
      }
    }
  }

  lemma SemHolders(t: Target, h: nat, call: Call)
    requires h <= 2 && Holds(call, SemAt(t, h))
    ensures Held(call.stage) >= h + 1
  {
  }

  /** A call past its queue can always move: in particular no release ever blocks. */
  lemma CanMove(c: Config, g: Gate, i: nat)
    requires Inv(c, g) && i < |g.calls| && !g.calls[i].stage.Queued? && !g.calls[i].stage.Done?
    ensures Advance(c, g, OwnStep(g, i)).Some?
  {
    var call := g.calls[i];
    if call.stage.Unwinding? && call.stage.held > 0 {
      var s := SemAt(call.target, call.stage.held - 1);
      assert PermitsFit(c, g, s);
      if Holders(g.calls, s) == 0 {
        HolderCounted(g.calls, i, s);
      }
    }
  }

  lemma {:induction false} HolderCounted(calls: seq<Call>, i: nat, s: Sem)
    requires i < |calls| && Holds(calls[i], s)
    ensures Holders(calls, s) >= 1
  {
    if i < |calls| - 1 {
      HolderCounted(calls[..|calls| - 1], i, s);
    }
  }

  /** When every unfinished call queues, the foremost one finds its semaphore free. */
  lemma ForemostCanAcquire(c: Config, g: Gate, i: nat)
    requires Inv(c, g) && i < |g.calls| && g.calls[i].stage.Queued?
    requires forall k :: 0 <= k < |g.calls| ==> g.calls[k].stage.Queued? || g.calls[k].stage.Done?
    requires forall k :: 0 <= k < |g.calls| && g.calls[k].stage.Queued? ==> g.calls[k].stage.held <= g.calls[i].stage.held
    ensures Advance(c, g, Acquire(i)).Some?
  {
    var h := g.calls[i].stage.held;
    var s := SemAt(g.calls[i].target, h);
    forall k | 0 <= k < |g.calls| ensures !Holds(g.calls[k], s) {
      if Holds(g.calls[k], s) {
        SemHolders(g.calls[i].target, h, g.calls[k]);
      }
    }
    NoHolders(g.calls, s);
    assert PermitsFit(c, g, s);
  }

  /** Deadlock freedom: while some call is unfinished, some call can take its own
      next step, without any deadline firing. */
  lemma NoDeadlock(c: Config, g: Gate, j: nat) returns (i: nat)
    requires Inv(c, g) && j < |g.calls| && !g.calls[j].stage.Done?
    ensures i < |g.calls| && !g.calls[i].stage.Done?
    ensures var step := OwnStep(g, i); !step.Arrive? && !step.Tick? && !step.Expire? && step.i == i
    ensures Advance(c, g, OwnStep(g, i)).Some?
  {
    if k :| 0 <= k < |g.calls| && !g.calls[k].stage.Queued? && !g.calls[k].stage.Done? {
      i := k;
      CanMove(c, g, i);
    } else {
      i := Foremost(g.calls, j);
      ForemostCanAcquire(c, g, i);
    }
  }

  /** Steps a call can still take. */
  function Rank(s: Stage): nat
    requires StageOk(s)
  {
    match s
    case Arrived => 10
    case Queued(h) => 9 - h
    case Calling => 6
    case Returned(_) => 5
    case Unwinding(h, _) => h + 1
    case Done(_) => 0
  }

  function Work(calls: seq<Call>): nat
    requires forall i :: 0 <= i < |calls| ==> StageOk(calls[i].stage)
  {
    if calls == [] then 0
    else Work(calls[..|calls| - 1]) + Rank(calls[|calls| - 1].stage)
  }

  lemma {:induction false} WorkUpdate(calls: seq<Call>, i: nat, call: Call)
    requires i < |calls| && StageOk(call.stage)
    requires forall k :: 0 <= k < |calls| ==> StageOk(calls[k].stage)
    ensures Work(calls[i := call]) + Rank(calls[i].stage) == Work(calls) + Rank(call.stage)
  {
    var n := |calls| - 1;
    if i == n {
      assert calls[i := call][..n] == calls[..n];
    } else {
      assert calls[i := call][..n] == calls[..n][i := call];
      WorkUpdate(calls[..n], i, call);
    }
  }

  /** Every step other than an arrival or a tick, timeouts included, uses up work. */
  lemma StepUsesWork(c: Config, g: Gate, step: Step, g': Gate)
    requires Inv(c, g) && Inv(c, g') && Advance(c, g, step) == Some(g')
    ensures !step.Arrive? && !step.Tick? ==> Work(g'.calls) < Work(g.calls)
    ensures step.Arrive? ==> Work(g'.calls) == Work(g.calls) + 10
    ensures step.Tick? ==> Work(g'.calls) == Work(g.calls)
  {
    if step.Arrive? {
      assert g'.calls[..|g.calls|] == g.calls;
    } else if !step.Tick? {
      StepLowersRank(c, g, step, g');
      WorkUpdate(g.calls, step.i, g'.calls[step.i]);
    }
  }

  lemma StepLowersRank(c: Config, g: Gate, step: Step, g': Gate)
    requires Advance(c, g, step) == Some(g') && !step.Arrive? && !step.Tick?
    requires step.i < |g.calls| ==> StageOk(g.calls[step.i].stage)
    ensures step.i < |g.calls| && g'.calls == g.calls[step.i := g'.calls[step.i]]
    ensures StageOk(g'.calls[step.i].stage) && Rank(g'.calls[step.i].stage) < Rank(g.calls[step.i].stage)
  {
  }

  function Arrivals(steps: seq<Step>): nat {
    if steps == [] then 0
    else Arrivals(steps[..|steps| - 1]) + if steps[|steps| - 1].Arrive? then 1 else 0
  }

  /** Steps of the calls themselves, timeouts included. */
  function Moves(steps: seq<Step>): nat {
    if steps == [] then 0
    else
      var last := steps[|steps| - 1];
      Moves(steps[..|steps| - 1]) + if last.Arrive? || last.Tick? then 0 else 1
  }

  lemma {:induction false} InFlightAre(calls: seq<Call>, s: Sem)
    ensures InFlight(calls, s) == |set i: nat | i < |calls| && calls[i].stage == Calling && Holds(calls[i], s)|
  {
    var all := set i: nat | i < |calls| && calls[i].stage == Calling && Holds(calls[i], s);
    if calls == [] {
      assert all == {};
    } else {
      var n := |calls| - 1;
      InFlightAre(calls[..n], s);
      var before := set i: nat | i < |calls[..n]| && calls[..n][i].stage == Calling && Holds(calls[..n][i], s);
      OneMoreHolder(all, before, n, calls[n].stage == Calling && Holds(calls[n], s));
    }
  }

  lemma {:induction false} CountsAre(steps: seq<Step>)
    ensures Arrivals(steps) == |set k: nat | k < |steps| && steps[k].Arrive?|
    ensures Moves(steps) == |set k: nat | k < |steps| && !steps[k].Arrive? && !steps[k].Tick?|
  {
    var arrivals := set k: nat | k < |steps| && steps[k].Arrive?;
    var moves := set k: nat | k < |steps| && !steps[k].Arrive? && !steps[k].Tick?;
    if steps == [] {
      assert arrivals == {} && moves == {};
    } else {
      var n := |steps| - 1;
      CountsAre(steps[..n]);
      var before := set k: nat | k < |steps[..n]| && steps[..n][k].Arrive?;
      OneMoreHolder(arrivals, before, n, steps[n].Arrive?);
      var earlier := set k: nat | k < |steps[..n]| && !steps[..n][k].Arrive? && !steps[..n][k].Tick?;
      OneMoreHolder(moves, earlier, n, !steps[n].Arrive? && !steps[n].Tick?);
    }
  }

  /** From an empty gate, a run has at most ten steps besides ticks and arrivals for every
      call that arrives in it. */
  lemma TenStepsPerCall(c: Config, steps: seq<Step>)
    requires Exec(c, START, steps).Some?
    ensures |set k: nat | k < |steps| && !steps[k].Arrive? && !steps[k].Tick?| <= 10 * |set k: nat | k < |steps| && steps[k].Arrive?|
  {
    RunsAreShort(c, START, steps);
    CountsAre(steps);
  }

  /** Dispatch terminates: a run takes at most ten steps per call that arrives in
      it, besides the ticks of the clock and the work left at its start. */
  lemma {:induction false} RunsAreShort(c: Config, g: Gate, steps: seq<Step>)
    requires Inv(c, g) && Exec(c, g, steps).Some?
    ensures Inv(c, Exec(c, g, steps).value)
    ensures Moves(steps) + Work(Exec(c, g, steps).value.calls) <= Work(g.calls) + 10 * Arrivals(steps)
  {
    if steps != [] {
      var before := steps[..|steps| - 1];
      RunsAreShort(c, g, before);
      InvStep(c, Exec(c, g, before).value, steps[|steps| - 1], Exec(c, g, steps).value);
      StepUsesWork(c, Exec(c, g, before).value, steps[|steps| - 1], Exec(c, g, steps).value);
    }
  }

  /** Some admitted call of the upstream has still to report to its breaker. */
  predicate Pending(g: Gate, id: string) {
    exists i :: 0 <= i < |g.calls| && g.calls[i].target.id == id && WillReport(g.calls[i].stage)
  }

  predicate WillReport(s: Stage) {
    s.Queued? || s.Calling? || (s.Returned? && s.outcome != NotReady)
  }

  /** The breaker is open, its trial is out, and no call is left to bring it back. */
  predicate Wedged(c: Config, g: Gate, id: string) {
    var b := BreakerOf(g, id);
    c.breaker.failures > 0 && b.openedAt.Some? && b.trial && !Pending(g, id)
  }

  lemma WedgeStays(c: Config, g: Gate, step: Step, g': Gate, id: string)
    requires Wedged(c, g, id) && Advance(c, g, step) == Some(g')
    ensures Wedged(c, g', id)
  {
    assert BreakerOf(g', id) == BreakerOf(g, id);
    forall i | 0 <= i < |g'.calls| && g'.calls[i].target.id == id ensures !WillReport(g'.calls[i].stage) {
      if i < |g.calls| {
        assert !WillReport(g.calls[i].stage);
      }
    }
  }

  lemma {:induction false} WedgedForever(c: Config, g: Gate, steps: seq<Step>, id: string)
    requires Wedged(c, g, id) && Exec(c, g, steps).Some?
    ensures Wedged(c, Exec(c, g, steps).value, id)
  {
    if steps != [] {
      var before := steps[..|steps| - 1];
      WedgedForever(c, g, before, id);
      WedgeStays(c, Exec(c, g, before).value, steps[|steps| - 1], Exec(c, g, steps).value, id);
    }
  }

  /** A trial call that runs out of time waiting for a permit, or finds its
      upstream not ready, wedges the breaker when no other call is pending. */
  lemma TrialCanLeak(c: Config, g: Gate, i: nat, step: Step, g': Gate)
    requires c.breaker.failures > 0 && i < |g.calls|
    requires step == Expire(i) || (step == Report(i) && g.calls[i].stage == Returned(NotReady))
    requires Advance(c, g, step) == Some(g')
    requires var b := BreakerOf(g, g.calls[i].target.id); b.openedAt.Some? && b.trial
    requires forall k :: 0 <= k < |g.calls| && k != i && g.calls[k].target.id == g.calls[i].target.id
                         ==> !WillReport(g.calls[k].stage)
    ensures Wedged(c, g', g.calls[i].target.id)
  {
  }

  lemma ReachStep(c: Config, g: Gate, step: Step, g': Gate)
    requires Reachable(c, g) && Advance(c, g, step) == Some(g')
    ensures Reachable(c, g')
  {
    var steps :| Exec(c, START, steps) == Some(g);
    assert (steps + [step])[..|steps|] == steps;
    assert Exec(c, START, steps + [step]) == Some(g');
  }

  ghost predicate AllDone(g: Gate) {
    forall k :: 0 <= k < |g.calls| ==> g.calls[k].stage.Done?
  }

  /** No other call is under way. */
  ghost predicate Alone(g: Gate, i: nat) {
    i < |g.calls| && forall k :: 0 <= k < |g.calls| && k != i ==> g.calls[k].stage.Done?
  }

  /** Nothing but one call's stage, and permits, has changed. */
  ghost predicate Moved(g: Gate, i: nat, stage: Stage, g': Gate) {
    && i < |g.calls| && g'.calls == g.calls[i := g.calls[i].(stage := stage)]
    && g'.breakers == g.breakers && g'.now == g.now
  }

  /** A call that the breaker lets through into an idle gateway. */
  lemma AdmitCall(c: Config, g: Gate, t: Target) returns (g': Gate)
    requires Reachable(c, g) && AllDone(g) && B.Allows(c.breaker, BreakerOf(g, t.id), g.now)
    ensures Reachable(c, g') && g'.calls == g.calls + [Call(t, Queued(0))] && g'.now == g.now
    ensures BreakerOf(g', t.id) == B.Asked(c.breaker, BreakerOf(g, t.id), g.now)
  {
    var i := |g.calls|;
    var g0 := g.(calls := g.calls + [Call(t, Arrived)]);
    ReachStep(c, g, Arrive(t), g0);
    g' := At(g0, i, Queued(0)).(breakers := g.breakers[t.id := B.Asked(c.breaker, BreakerOf(g, t.id), g.now)]);
    ReachStep(c, g0, Admit(i), g');
  }

  /** Alone, a queued call gets the permits up to any point of its queue. */
  lemma {:induction false} ClimbTo(c: Config, g: Gate, i: nat, h: nat) returns (g': Gate)
    requires Reachable(c, g) && Alone(g, i) && g.calls[i].stage.Queued? && g.calls[i].stage.held <= h <= 2
    ensures Reachable(c, g') && Moved(g, i, Queued(h), g')
    decreases h - g.calls[i].stage.held
  {
    g' := g;
    if g.calls[i].stage.held < h {
      var g1 := AcquireAlone(c, g, i);
      g' := ClimbTo(c, g1, i, h);
    }
  }

  lemma AcquireAlone(c: Config, g: Gate, i: nat) returns (g': Gate)
    requires Reachable(c, g) && Alone(g, i) && g.calls[i].stage.Queued?
    ensures Reachable(c, g')
    ensures var h := g.calls[i].stage.held; Moved(g, i, if h < 2 then Queued(h + 1) else Calling, g')
  {
    ReachableInv(c, g);
    ForemostCanAcquire(c, g, i);
    g' := Advance(c, g, Acquire(i)).value;
    ReachStep(c, g, Acquire(i), g');
  }

  lemma {:induction false} Unwind(c: Config, g: Gate, i: nat) returns (g': Gate)
    requires Reachable(c, g) && i < |g.calls| && g.calls[i].stage.Unwinding?
    ensures Reachable(c, g') && Moved(g, i, Done(g.calls[i].stage.outcome), g')
    decreases g.calls[i].stage.held
  {
    ReachableInv(c, g);
    CanMove(c, g, i);
    var g1 := Advance(c, g, Release(i)).value;
    ReachStep(c, g, Release(i), g1);
    g' := g1;
    if g.calls[i].stage.held > 0 {
      g' := Unwind(c, g1, i);
    }
  }

  lemma ReachReport(c: Config, g: Gate, i: nat, o: Outcome) returns (g': Gate)
    requires Reachable(c, g) && i < |g.calls| && g.calls[i].stage == Calling && o in {Ok, NotReady, Error}
    ensures Reachable(c, g') && g'.calls == g.calls[i := g.calls[i].(stage := Unwinding(3, o))] && g'.now == g.now
    ensures g'.breakers == Reported(c, g, g.calls[i].target.id, o).breakers
  {
    var g1 := At(g, i, Returned(o));
    ReachStep(c, g, Return(i, o), g1);
    g' := Reported(c, At(g1, i, Unwinding(3, o)), g.calls[i].target.id, o);
    ReachStep(c, g1, Report(i), g');
  }

  /** One call from arrival to end in an idle gateway, under any limits. */
  lemma RunCall(c: Config, g: Gate, t: Target, o: Outcome) returns (g': Gate)
    requires Reachable(c, g) && AllDone(g) && B.Allows(c.breaker, BreakerOf(g, t.id), g.now) && o in {NotReady, Error}
    ensures Reachable(c, g') && AllDone(g') && g'.now == g.now
    ensures var b := B.Asked(c.breaker, BreakerOf(g, t.id), g.now);
            BreakerOf(g', t.id) == if o == Error then B.FailedAt(c.breaker, b, g.now) else b
  {
    var i := |g.calls|;
    var g1 := AdmitCall(c, g, t);
    var g2 := ClimbTo(c, g1, i, 2);
    var g3 := AcquireAlone(c, g2, i);
    var g4 := ReachReport(c, g3, i, o);
    g' := Unwind(c, g4, i);
  }

  /** `n` failed calls in a row. */
  lemma {:induction false} ReachFailures(c: Config, t: Target, n: nat) returns (g: Gate)
    requires n <= c.breaker.failures
    ensures Reachable(c, g) && AllDone(g)
    ensures BreakerOf(g, t.id) == B.Brk(n, if 0 < n == c.breaker.failures then Some(g.now) else None, false)
  {
    if n == 0 {
      assert Exec(c, START, []) == Some(START);
      g := START;
    } else {
      g := ReachFailures(c, t, n - 1);
      g := RunCall(c, g, t, Error);
    }
  }

  /** An open circuit whose cooldown has passed, in an idle gateway. */
  lemma ReachCooledCircuit(c: Config, t: Target) returns (g: Gate)
    requires c.breaker.failures > 0
    ensures Reachable(c, g) && AllDone(g) && B.Allows(c.breaker, BreakerOf(g, t.id), g.now)
    ensures BreakerOf(g, t.id).openedAt.Some?
  {
    var g0 := ReachFailures(c, t, c.breaker.failures);
    var d: nat := if c.breaker.cooldown > 0 then c.breaker.cooldown else 0;
    g := g0.(now := g0.now + d);
    ReachStep(c, g0, Tick(d), g);
  }

  /** The wedge is reachable for every enabled breaker, every target and all
      limits: enough failures in a row open the circuit, and the trial after the
      cooldown finds the upstream not ready. */
  lemma WedgeIsReachable(c: Config, t: Target) returns (g: Gate)
    requires c.breaker.failures > 0
    ensures Reachable(c, g) && Wedged(c, g, t.id) && AllDone(g)
  {
    g := ReachCooledCircuit(c, t);
    g := RunCall(c, g, t, NotReady);
  }

  /** The trial that runs out of time while it waits for its permit `h`. */
  lemma WedgeByTimeout(c: Config, t: Target, h: nat) returns (g: Gate, i: nat)
    requires c.breaker.failures > 0 && h < 3 && Limit(c.limits, SemAt(t, h)) > 0
    ensures Reachable(c, g) && Wedged(c, g, t.id)
    ensures i < |g.calls| && g.calls[i] == Call(t, Unwinding(h, CapacityTimeout))
  {
    var g0 := ReachCooledCircuit(c, t);
    i := |g0.calls|;
    var g1 := AdmitCall(c, g0, t);
    var g2 := ClimbTo(c, g1, i, h);
    g := At(g2, i, Unwinding(h, CapacityTimeout));
    ReachStep(c, g2, Expire(i), g);
  }

  /** Some limit applies to the target. */
  predicate Limited(c: Config, t: Target) {
    exists h :: 0 <= h < 3 && Limit(c.limits, SemAt(t, h)) > 0
  }

  predicate TimedOut(s: Stage) {
    (s.Returned? || s.Unwinding? || s.Done?) && s.outcome == CapacityTimeout
  }

  ghost predicate TimeoutsAreLimited(c: Config, g: Gate) {
    && (forall k :: 0 <= k < |g.calls| ==> StageOk(g.calls[k].stage))
    && (forall k :: 0 <= k < |g.calls| && TimedOut(g.calls[k].stage) ==> Limited(c, g.calls[k].target))
  }

  lemma {:induction false} TimeoutNeedsLimit(c: Config, steps: seq<Step>)
    requires Exec(c, START, steps).Some?
    ensures TimeoutsAreLimited(c, Exec(c, START, steps).value)
  {
    if steps != [] {
      TimeoutNeedsLimit(c, steps[..|steps| - 1]);
      TimeoutStep(c, Exec(c, START, steps[..|steps| - 1]).value, steps[|steps| - 1], Exec(c, START, steps).value);
    }
  }

  lemma TimeoutStep(c: Config, g: Gate, step: Step, g': Gate)
    requires TimeoutsAreLimited(c, g) && Advance(c, g, step) == Some(g')
    ensures TimeoutsAreLimited(c, g')
  {
    if step.Expire? {
      ExpireStep(c, g, step.i, g');
    } else {
      QuietStep(c, g, step, g');
    }
  }

  lemma ExpireStep(c: Config, g: Gate, i: nat, g': Gate)
    requires TimeoutsAreLimited(c, g) && Advance(c, g, Expire(i)) == Some(g')
    ensures TimeoutsAreLimited(c, g')
  {
    var call := g.calls[i];
    assert Limit(c.limits, SemAt(call.target, call.stage.held)) > 0;
  }

  lemma QuietStep(c: Config, g: Gate, step: Step, g': Gate)
    requires TimeoutsAreLimited(c, g) && Advance(c, g, step) == Some(g') && !step.Expire?
    ensures TimeoutsAreLimited(c, g')
  {
    forall k | 0 <= k < |g'.calls|
      ensures StageOk(g'.calls[k].stage) && (TimedOut(g'.calls[k].stage) ==> Limited(c, g'.calls[k].target))
    {
      assert k < |g.calls| ==> StageOk(g.calls[k].stage);
    }
  }

  /** A call of the target ran into its deadline while waiting for capacity, and
      left the breaker wedged. */
  ghost predicate WedgedByTimeout(c: Config, g: Gate, t: Target) {
    && Reachable(c, g) && Wedged(c, g, t.id)
    && exists i :: 0 <= i < |g.calls| && g.calls[i].target == t && TimedOut(g.calls[i].stage)
  }

  /** The capacity-timeout exit leads into the wedge exactly where the breaker is
      enabled and some limit applies. */
  lemma TimeoutWedgeIff(c: Config, t: Target)
    ensures (exists g :: WedgedByTimeout(c, g, t)) <==> c.breaker.failures > 0 && Limited(c, t)
  {
    if g :| WedgedByTimeout(c, g, t) {
      var steps :| Exec(c, START, steps) == Some(g);
      TimeoutNeedsLimit(c, steps);
    }
    if c.breaker.failures > 0 && Limited(c, t) {
      var h :| 0 <= h < 3 && Limit(c.limits, SemAt(t, h)) > 0;
      var g, i := WedgeByTimeout(c, t, h);
      assert TimedOut(g.calls[i].stage);
      assert WedgedByTimeout(c, g, t);
    }
  }

  lemma {:induction false} ExecConcat(c: Config, g: Gate, a: seq<Step>, b: seq<Step>)
    requires Exec(c, g, a).Some?
    ensures Exec(c, g, a + b) == Exec(c, Exec(c, g, a).value, b)
  {
    if b == [] {
      assert a + b == a;
    } else {
      var n := |b| - 1;
      assert (a + b)[..|a + b| - 1] == a + b[..n];
      ExecConcat(c, g, a, b[..n]);
    }
  }

  lemma OwnStepKeepsUnwedged(c: Config, g: Gate, i: nat, g': Gate, id: string)
    requires i < |g.calls| && !g.calls[i].stage.Done? && Advance(c, g, OwnStep(g, i)) == Some(g')
    requires StageOk(g.calls[i].stage) && !Wedged(c, g, id)
    ensures !Wedged(c, g', id)
  {
    if g.calls[i].stage.Arrived? {
      AdmitKeepsUnwedged(c, g, i, g', id);
    } else if g.calls[i].stage.Returned? {
      ReportKeepsUnwedged(c, g, i, g', id);
    } else {
      assert BreakerOf(g', id) == BreakerOf(g, id);
      PendingStays(c, g, i, g', id);
    }
  }

  lemma AdmitKeepsUnwedged(c: Config, g: Gate, i: nat, g': Gate, id: string)
    requires i < |g.calls| && g.calls[i].stage.Arrived? && Advance(c, g, Admit(i)) == Some(g') && !Wedged(c, g, id)
    ensures !Wedged(c, g', id)
  {
    assert g'.calls[i].target == g.calls[i].target;
    if Pending(g, id) {
      var k :| 0 <= k < |g.calls| && g.calls[k].target.id == id && WillReport(g.calls[k].stage);
      assert g'.calls[k] == g.calls[k];
    }
  }

  lemma ReportKeepsUnwedged(c: Config, g: Gate, i: nat, g': Gate, id: string)
    requires i < |g.calls| && g.calls[i].stage.Returned? && StageOk(g.calls[i].stage)
    requires Advance(c, g, Report(i)) == Some(g') && !Wedged(c, g, id)
    ensures !Wedged(c, g', id)
  {
    if Pending(g, id) {
      var k :| 0 <= k < |g.calls| && g.calls[k].target.id == id && WillReport(g.calls[k].stage);
      assert k != i ==> g'.calls[k] == g.calls[k];
    }
  }

  /** A call on its way to a report stays so until it reports. */
  lemma PendingStays(c: Config, g: Gate, i: nat, g': Gate, id: string)
    requires i < |g.calls| && Advance(c, g, OwnStep(g, i)) == Some(g')
    requires g.calls[i].stage.Queued? || g.calls[i].stage.Calling? || g.calls[i].stage.Unwinding?
    ensures Pending(g, id) ==> Pending(g', id)
  {
    if Pending(g, id) {
      var k :| 0 <= k < |g.calls| && g.calls[k].target.id == id && WillReport(g.calls[k].stage);
      assert k != i ==> g'.calls[k] == g.calls[k];
      assert g'.calls[k].target.id == id && WillReport(g'.calls[k].stage);
    }
  }

  /** Every state can be run to the end of all its calls without any timeout;
      a breaker that is not wedged is not wedged then either. */
  lemma FinishAll(c: Config, g: Gate, id: string) returns (steps: seq<Step>, g': Gate)
    requires Inv(c, g)
    ensures Exec(c, g, steps) == Some(g') && Inv(c, g')
    ensures forall k :: 0 <= k < |steps| ==> !steps[k].Arrive? && !steps[k].Tick? && !steps[k].Expire?
    ensures forall k :: 0 <= k < |g'.calls| ==> g'.calls[k].stage.Done?
    ensures !Wedged(c, g, id) ==> !Wedged(c, g', id)
    decreases Work(g.calls)
  {
    if j :| 0 <= j < |g.calls| && !g.calls[j].stage.Done? {
      var i := NoDeadlock(c, g, j);
      var step := OwnStep(g, i);
      var g1 := Advance(c, g, step).value;
      InvStep(c, g, step, g1);
      StepUsesWork(c, g, step, g1);
      if !Wedged(c, g, id) {
        OwnStepKeepsUnwedged(c, g, i, g1, id);
      }
      var rest;
      rest, g' := FinishAll(c, g1, id);
      steps := [step] + rest;
      assert Exec(c, g, []) == Some(g) && [step][..0] == [];
      assert Exec(c, g, [step]) == Some(g1);
      ExecConcat(c, g, [step], rest);
    } else {
      steps, g' := [], g;
    }
  }

  /** Some continuation lets a new call through the breaker. */
  ghost predicate CanAdmit(c: Config, g: Gate, id: string) {
    exists steps :: Exec(c, g, steps).Some? &&
                    var g' := Exec(c, g, steps).value; B.Allows(c.breaker, BreakerOf(g', id), g'.now)
  }

  /** An upstream is shut out for good exactly when its breaker is wedged. */
  lemma ShutOutIffWedged(c: Config, g: Gate, id: string)
    requires Inv(c, g)
    ensures CanAdmit(c, g, id) <==> !Wedged(c, g, id)
  {
    if Wedged(c, g, id) {
      forall steps | Exec(c, g, steps).Some?
        ensures var g' := Exec(c, g, steps).value; !B.Allows(c.breaker, BreakerOf(g', id), g'.now)
      {
        WedgedForever(c, g, steps, id);
      }
    } else {
      var steps, g1 := FinishAll(c, g, id);
      var b := BreakerOf(g1, id);
      var d: nat := if b.openedAt.Some? && b.openedAt.value + c.breaker.cooldown > g1.now
                    then b.openedAt.value + c.breaker.cooldown - g1.now else 0;
      assert [Tick(d)][..0] == [];
      assert Exec(c, g1, [Tick(d)]) == Some(g1.(now := g1.now + d)) by {
        assert Exec(c, g1, []) == Some(g1);
      }
      ExecConcat(c, g, steps, [Tick(d)]);
    }
  }

  /** The use a step makes of an upstream's breaker. */
  function UseOf(g: Gate, step: Step, id: string): seq<B.Event> {
    match step
    case Admit(i) =>
      if i < |g.calls| && g.calls[i].target.id == id then [B.Ask(g.now)] else []
    case Report(i) =>
      if i < |g.calls| && g.calls[i].target.id == id && g.calls[i].stage.Returned? then
        match g.calls[i].stage.outcome
        case Ok => [B.Succeed]
        case Error => [B.Fail(g.now)]
        case _ => []
      else []
    case _ => []
  }

  /** All uses a run from the start makes of an upstream's breaker. */
  function Uses(c: Config, steps: seq<Step>, id: string): seq<B.Event> {
    if steps == [] then []
    else
      var before := steps[..|steps| - 1];
      Uses(c, before, id) +
      match Exec(c, START, before)
      case None => []
      case Some(g) => UseOf(g, steps[|steps| - 1], id)
  }

  ghost predicate NoLaterThan(h: seq<B.Event>, now: int) {
    forall i :: 0 <= i < |h| && !h[i].Succeed? ==> h[i].now <= now
  }

  lemma UseApplies(c: Config, g: Gate, step: Step, g': Gate, id: string, h: seq<B.Event>)
    requires Advance(c, g, step) == Some(g')
    requires BreakerOf(g, id) == B.Replay(c.breaker, h) && B.Monotone(h) && NoLaterThan(h, g.now)
    ensures var h' := h + UseOf(g, step, id);
            BreakerOf(g', id) == B.Replay(c.breaker, h') && B.Monotone(h') && NoLaterThan(h', g'.now)
  {
    var use := UseOf(g, step, id);
    if use == [] {
      assert h + use == h;
      UnusedBreakerStays(c, g, step, g', id);
    } else {
      UseExtends(c, h, use[0], g.now);
      UsedBreakerMoves(c, g, step, g', id);
      assert use == [use[0]];
    }
  }

  lemma UnusedBreakerStays(c: Config, g: Gate, step: Step, g': Gate, id: string)
    requires Advance(c, g, step) == Some(g') && UseOf(g, step, id) == []
    ensures BreakerOf(g', id) == BreakerOf(g, id) && g'.now >= g.now
  {
  }

  lemma UsedBreakerMoves(c: Config, g: Gate, step: Step, g': Gate, id: string)
    requires Advance(c, g, step) == Some(g') && UseOf(g, step, id) != []
    ensures var use := UseOf(g, step, id);
            && |use| == 1 && (!use[0].Succeed? ==> use[0].now == g.now) && g'.now == g.now
            && BreakerOf(g', id) == B.Apply(c.breaker, BreakerOf(g, id), use[0])
  {
  }

  lemma UseExtends(c: Config, h: seq<B.Event>, e: B.Event, now: int)
    requires B.Monotone(h) && NoLaterThan(h, now) && (!e.Succeed? ==> e.now == now)
    ensures B.Monotone(h + [e]) && NoLaterThan(h + [e], now)
    ensures B.Replay(c.breaker, h + [e]) == B.Apply(c.breaker, B.Replay(c.breaker, h), e)
  {
    assert (h + [e])[..|h|] == h;
  }

  /** In a run of dispatch each breaker is what its own uses in that run make of
      it, and they come with clock readings that never go back: what is proved of
      breaker histories, the rate bound of an open circuit included, holds there. */
  lemma {:induction false} BreakerFollowsItsUses(c: Config, steps: seq<Step>, id: string)
    requires Exec(c, START, steps).Some?
    ensures var g, h := Exec(c, START, steps).value, Uses(c, steps, id);
            BreakerOf(g, id) == B.Replay(c.breaker, h) && B.Monotone(h) && NoLaterThan(h, g.now)
  {
    if steps != [] {
      var before := steps[..|steps| - 1];
      BreakerFollowsItsUses(c, before, id);
      UseApplies(c, Exec(c, START, before).value, steps[|steps| - 1], Exec(c, START, steps).value, id, Uses(c, before, id));
    }
  }

  /** A counting semaphore; a capacity of zero or less stands for nil. */
  class Semaphore {
    const cap: int
    var fill: nat

    ghost predicate Valid()
      reads this
    {
      if cap > 0 then fill <= cap else fill == 0
    }

    /** A permit can be had before the context ends. */
    ghost predicate Free(inTime: bool)
      reads this
    {
      cap <= 0 || (fill < cap && inTime)
    }

    constructor (cap: int)
      ensures this.cap == cap && fill == 0 && Valid()
    {
      this.cap := cap;
      fill := 0;
    }

    /** Takes a permit, unless the context ends first: it always does where no
        permit is free, and may where one is (`inTime` false). */
    method Acquire(inTime: bool) returns (ok: bool)
      requires Valid()
      modifies this`fill
      ensures Valid()
      ensures ok == old(Free(inTime))
      ensures fill == old(fill) + if ok && cap > 0 then 1 else 0
    {
      if cap <= 0 {
        return true;
      }
      if fill < cap && inTime {
        fill := fill + 1;
        return true;
      }
      return false;
    }

    method Release()
      requires Valid() && (cap > 0 ==> fill > 0)
      modifies this`fill
      ensures Valid() && fill == old(fill) - if cap > 0 then 1 else 0
    {
      if cap > 0 {
        fill := fill - 1;
      }
    }
  }

  /** What one call makes of its breaker: its answer, and the outcome reported. */
  function BreakerAfter(c: B.Config, b: B.Brk, asked: int, result: Outcome, reported: int): B.Brk {
    match result
    case CircuitOpen => b
    case Ok => B.Succeeded(c, B.Asked(c, b, asked))
    case Error => B.FailedAt(c, B.Asked(c, b, asked), reported)
    case NotReady => B.Asked(c, b, asked)
    case CapacityTimeout => B.Asked(c, b, asked)
  }

  /** The three semaphores a call goes through, in order. */
  class Permits {
    const overall: Semaphore
    const namespace: Semaphore
    const server: Semaphore

    constructor (overall: Semaphore, namespace: Semaphore, server: Semaphore)
      ensures this.overall == overall && this.namespace == namespace && this.server == server
    {
      this.overall, this.namespace, this.server := overall, namespace, server;
    }

    function At(k: nat): Semaphore {
      if k == 0 then overall else if k == 1 then namespace else server
    }

    ghost predicate Valid()
      reads overall, namespace, server
    {
      && overall != namespace && overall != server && namespace != server
      && overall.Valid() && namespace.Valid() && server.Valid()
    }

    /** The fills of the three semaphores. */
    ghost function Fills(): (int, int, int)
      reads overall, namespace, server
    {
      (overall.fill, namespace.fill, server.fill)
    }

    /** The fills once the first `held` permits are taken on top of `base`. */
    ghost function Plus(base: (int, int, int), held: nat): (int, int, int) {
      (base.0 + if held > 0 && overall.cap > 0 then 1 else 0,
       base.1 + if held > 1 && namespace.cap > 0 then 1 else 0,
       base.2 + if held > 2 && server.cap > 0 then 1 else 0)
    }

    /** Whether permit `k` can be had in time. */
    ghost predicate Free(k: nat, inTime: seq<bool>)
      requires k < 3 == |inTime|
      reads overall, namespace, server
    {
      At(k).Free(inTime[k])
    }

    /** Takes the permits in order until one is not to be had in time. */
    method AcquireAll(inTime: seq<bool>) returns (held: nat)
      requires Valid() && |inTime| == 3
      modifies overall`fill, namespace`fill, server`fill
      ensures Valid() && held <= 3 && Fills() == Plus(old(Fills()), held)
      ensures held > 0 ==> old(overall.Free(inTime[0]))
      ensures held > 1 ==> old(namespace.Free(inTime[1]))
      ensures held > 2 ==> old(server.Free(inTime[2]))
      ensures held < 3 ==> !old((if held == 0 then overall else if held == 1 then namespace else server).Free(inTime[held]))
    {
      held := 0;
      while held < 3
        invariant Valid() && held <= 3 && Fills() == Plus(old(Fills()), held)
        invariant held > 0 ==> old(Free(0, inTime))
        invariant held > 1 ==> old(Free(1, inTime))
        invariant held > 2 ==> old(Free(2, inTime))
      {
        var ok := At(held).Acquire(inTime[held]);
        if !ok {
          return;
        }
        held := held + 1;
      }
    }

    /** The deferred releases of the first `n` permits, last first. */
    method ReleaseAll(n: nat, ghost base: (int, int, int))
      requires Valid() && n <= 3 && Fills() == Plus(base, n) && base.0 >= 0 && base.1 >= 0 && base.2 >= 0
      modifies overall`fill, namespace`fill, server`fill
      ensures Valid() && Fills() == base
    {
      var held := n;
      while held > 0
        invariant Valid() && held <= 3 && Fills() == Plus(base, held)
      {
        held := held - 1;
        At(held).Release();
      }
    }
  }

  /** One call on its own: breaker, permits in order, upstream call, report, and
      the deferred releases. `inTime[k]` says whether permit `k` beats the
      deadline; `outcome` is what the upstream call returns. On every exit path
      each semaphore is as it was. */
  method Dispatch(brk: B.CircuitBreaker, permits: Permits, asked: int, inTime: seq<bool>, outcome: Outcome, reported: int)
    returns (result: Outcome)
    requires permits.Valid() && |inTime| == 3 && outcome in {Ok, NotReady, Error}
    modifies brk, permits.overall`fill, permits.namespace`fill, permits.server`fill
    ensures permits.Valid() && permits.Fills() == old(permits.Fills())
    ensures result == CircuitOpen <==> !B.Allows(brk.cfg, old(brk.Value()), asked)
    ensures result != CircuitOpen ==>
              result == if old(permits.overall.Free(inTime[0]) && permits.namespace.Free(inTime[1]) && permits.server.Free(inTime[2]))
                        then outcome else CapacityTimeout
    ensures brk.Value() == BreakerAfter(brk.cfg, old(brk.Value()), asked, result, reported)
    ensures result == CircuitOpen || brk.cfg.failures <= 0 ==> brk.Value() == old(brk.Value())
    ensures result == Ok && brk.cfg.failures > 0 ==> brk.failures == 0 && brk.openedAt == None && !brk.trial
    ensures result == Error && brk.cfg.failures > 0 ==>
              && brk.failures == old(brk.failures) + 1 && !brk.trial
              && brk.openedAt == if brk.failures >= brk.cfg.failures then Some(reported) else old(brk.openedAt)
    ensures (result == NotReady || result == CapacityTimeout) && brk.cfg.failures > 0 ==>
              && brk.failures == old(brk.failures) && brk.openedAt == old(brk.openedAt)
              && (brk.trial <==> old(brk.trial) || old(brk.openedAt).Some?)
  {
    var ok := brk.Allow(asked);
    if !ok {
      return CircuitOpen;
    }
    ghost var base := permits.Fills();
    var held := permits.AcquireAll(inTime);
    if held < 3 {
      result := CapacityTimeout;
    } else {
      result := outcome;
      if outcome == Ok {
        brk.Success();
      } else if outcome == Error {
        brk.Failure(reported);
      }
    }
    permits.ReleaseAll(held, base);
  }
}
