/** Notifications are never owed for good: with no further crash, exit, tool change
    or cancellation, the syncs that are due bring the table up to date. */
module Settling {

  import opened Prelude
  import opened ToolTable
  import U = Upstream
  import opened Lifecycle
  import opened Agreement

  /** Steps the gateway takes by itself: its syncs, and a run loop's bookkeeping
      once its run has returned. */
  predicate ByItself(step: Step) {
    step.Move? ==> step.e.Count? || step.e == StopSeen || step.e == Decide
  }

  /** Notifications a loop at this point is bound to, bookkeeping steps included. */
  function PcDebt(pc: PC): nat {
    match pc
    case Notifying(next) => 1 + PcDebt(next)
    case Ended => 3
    case Deciding => 2
    case _ => 0
  }

  function Debt(u: Up): nat {
    u.owed + PcDebt(u.pc)
  }

  function Debts(ups: seq<Up>): nat {
    if ups == [] then 0 else Debts(ups[..|ups| - 1]) + Debt(ups[|ups| - 1])
  }

  lemma {:induction false} DebtsUpdate(ups: seq<Up>, k: nat, u: Up)
    requires k < |ups|
    ensures Debts(ups[k := u]) + Debt(ups[k]) == Debts(ups) + Debt(u)
  {
    var n := |ups| - 1;
    if k == n {
      assert ups[k := u][..n] == ups[..n];
    } else {
      assert ups[k := u][..n] == ups[..n][k := u];
      DebtsUpdate(ups[..n], k, u);
    }
  }

  /** What is owed in all; the startup sync owes one of its own. */
  function Owed(s: Sys): nat {
    Debts(s.ups) + if s.job.Some? && s.job.value.owner.StartupCall? then 1 else 0
  }

  /** Steps until the sync in progress, or the next one, is through. */
  function Phase(s: Sys): int {
    if s.job.None? then |s.ups| + 2 else |s.ups| - |s.job.value.read|
  }

  ghost predicate Quiescent(s: Sys) {
    s.job == None && forall k :: 0 <= k < |s.ups| ==> !Outstanding(s, k)
  }

  /** A step that makes progress. */
  ghost predicate Progresses(maxFailures: int, s: Sys, step: Step, s': Sys) {
    && |s.ups| == |s.ns.servers| && Advance(maxFailures, s, step) == Some(s') && ByItself(step)
    && |s'.ups| == |s.ups| && (s'.job.Some? ==> |s'.job.value.read| <= |s'.ups|)
    && (Owed(s') < Owed(s) || (Owed(s') == Owed(s) && Phase(s') < Phase(s)))
  }

  ghost predicate Sized(s: Sys) {
    && |s.ups| == |s.ns.servers|
    && (s.job.Some? ==> |s.job.value.read| <= |s.ups| && CanOwn(s, s.job.value.owner))
  }

  lemma ReadOn(maxFailures: int, s: Sys) returns (s': Sys)
    requires Sized(s) && s.job.Some? && |s.job.value.read| < |s.ups|
    ensures Progresses(maxFailures, s, SyncRead, s')
  {
    s' := Advance(maxFailures, s, SyncRead).value;
  }

  lemma ResumeDebts(s: Sys, o: Owner)
    requires CanOwn(s, o)
    ensures |Resume(s.ups, o)| == |s.ups|
    ensures Debts(Resume(s.ups, o)) + (if o.StartupCall? then 0 else 1) == Debts(s.ups)
  {
    match o
    case RunLoop(k) => DebtsUpdate(s.ups, k, Goto(s.ups[k], s.ups[k].pc.next));
    case Handler(k) => DebtsUpdate(s.ups, k, s.ups[k].(owed := s.ups[k].owed - 1));
    case StartupCall =>
  }

  lemma FinishOn(maxFailures: int, s: Sys) returns (s': Sys)
    requires Sized(s) && s.job.Some? && |s.job.value.read| == |s.ups|
    ensures Progresses(maxFailures, s, SyncFinish, s')
  {
    ResumeDebts(s, s.job.value.owner);
    s' := Advance(maxFailures, s, SyncFinish).value;
  }

  lemma StartSyncing(maxFailures: int, s: Sys, o: Owner) returns (s': Sys)
    requires Sized(s) && s.job.None? && CanOwn(s, o) && !o.StartupCall?
    ensures Progresses(maxFailures, s, SyncStart(o), s')
  {
    s' := Advance(maxFailures, s, SyncStart(o)).value;
  }

  /** The bookkeeping step of a loop whose run has returned. */
  lemma Bookkeeping(maxFailures: int, u: Up) returns (e: Event, u': Up)
    requires u.pc == Ended || u.pc == Deciding
    ensures (e.Count? || e == StopSeen || e == Decide) && Next(maxFailures, u, e) == Some(u') && Debt(u') < Debt(u)
  {
    e := if u.pc == Deciding then Decide else if u.cancelled then StopSeen else Count(true);
    u' := Next(maxFailures, u, e).value;
  }

  lemma KeepBooks(maxFailures: int, s: Sys, k: nat) returns (step: Step, s': Sys)
    requires Sized(s) && s.job.None? && k < |s.ups| && (s.ups[k].pc == Ended || s.ups[k].pc == Deciding)
    ensures Progresses(maxFailures, s, step, s')
  {
    var e, u := Bookkeeping(maxFailures, s.ups[k]);
    step := Move(k, e);
    s' := s.(ups := s.ups[k := u]);
    MoveAdvances(maxFailures, s, k, e, u);
    LessOwed(s, k, u);
  }

  lemma MoveAdvances(maxFailures: int, s: Sys, k: nat, e: Event, u: Up)
    requires |s.ups| == |s.ns.servers| && k < |s.ups| && SaneEvent(e) && Next(maxFailures, s.ups[k], e) == Some(u)
    ensures Advance(maxFailures, s, Move(k, e)) == Some(s.(ups := s.ups[k := u]))
  {
  }

  lemma LessOwed(s: Sys, k: nat, u: Up)
    requires k < |s.ups| && Debt(u) < Debt(s.ups[k])
    ensures Owed(s.(ups := s.ups[k := u])) < Owed(s)
  {
    DebtsUpdate(s.ups, k, u);
  }

  /** Where something is outstanding, a step that needs nobody else makes progress. */
  lemma CanProgress(maxFailures: int, s: Sys) returns (step: Step, s': Sys)
    requires SysInv(maxFailures, s) && !Quiescent(s)
    ensures Progresses(maxFailures, s, step, s')
  {
    if s.job.Some? && |s.job.value.read| < |s.ups| {
      step := SyncRead;
      s' := ReadOn(maxFailures, s);
    } else if s.job.Some? {
      step := SyncFinish;
      s' := FinishOn(maxFailures, s);
    } else {
      var k :| 0 <= k < |s.ups| && Outstanding(s, k);
      if s.ups[k].owed > 0 {
        step := SyncStart(Handler(k));
        s' := StartSyncing(maxFailures, s, Handler(k));
      } else if s.ups[k].pc.Notifying? {
        step := SyncStart(RunLoop(k));
        s' := StartSyncing(maxFailures, s, RunLoop(k));
      } else {
        step, s' := KeepBooks(maxFailures, s, k);
      }
    }
  }

  lemma RunExtends(maxFailures: int, run: seq<Sys>, steps: seq<Step>, step: Step, s': Sys)
    requires IsRun(maxFailures, run, steps)
    requires var s := run[|steps|]; |s.ups| == |s.ns.servers| && Advance(maxFailures, s, step) == Some(s')
    ensures IsRun(maxFailures, run + [s'], steps + [step])
  {
    var run', steps' := run + [s'], steps + [step];
    forall k | 0 <= k < |steps'|
      ensures |run'[k].ups| == |run'[k].ns.servers| && Advance(maxFailures, run'[k], steps'[k]) == Some(run'[k + 1])
    {
      if k < |steps| {
        assert run'[k] == run[k] && run'[k + 1] == run[k + 1] && steps'[k] == steps[k];
      }
    }
  }

  /** Every run can be carried on, by steps of the gateway alone, to where nothing
      is outstanding; the table is then the rebuild. */
  lemma {:induction false} EveryRunCanSettle(maxFailures: int, run: seq<Sys>, steps: seq<Step>)
    returns (run': seq<Sys>, steps': seq<Step>)
    requires IsRun(maxFailures, run, steps) && GoodNamespace(run[0].ns, run[0].meta)
    ensures IsRun(maxFailures, run', steps') && run <= run' && steps <= steps'
    ensures forall k :: |steps| <= k < |steps'| ==> ByItself(steps'[k])
    ensures Quiescent(run'[|steps'|])
    decreases Owed(run[|steps|]), Phase(run[|steps|])
  {
    RunInv(maxFailures, run, steps);
    run', steps' := run, steps;
    var s := run[|steps|];
    if !Quiescent(s) {
      var step, s' := CanProgress(maxFailures, s);
      RunExtends(maxFailures, run, steps, step, s');
      RunInv(maxFailures, run + [s'], steps + [step]);
      run', steps' := EveryRunCanSettle(maxFailures, run + [s'], steps + [step]);
    }
  }

  /** So every run can be carried on to where the table holds a row for every listed
      tool of every Ready upstream, and besides the meta-tools no other. */
  lemma TableCanSettle(maxFailures: int, run: seq<Sys>, steps: seq<Step>)
    returns (run': seq<Sys>, steps': seq<Step>)
    requires IsRun(maxFailures, run, steps) && GoodNamespace(run[0].ns, run[0].meta)
    ensures IsRun(maxFailures, run', steps') && run <= run' && steps <= steps'
    ensures forall k :: |steps| <= k < |steps'| ==> ByItself(steps'[k])
    ensures var s := run'[|steps'|];
            |s.ups| == |s.ns.servers| && Quiescent(s) && TableShows(run[0].table, s)
  {
    run', steps' := EveryRunCanSettle(maxFailures, run, steps);
    assert run'[0] == run[0];
    QuiescentTableIsRebuild(maxFailures, run', steps');
  }
}
