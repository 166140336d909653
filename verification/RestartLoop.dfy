/** The restart loop read off an upstream's whole life: what the step machine does
    between runs is what the loop function computes. */
module RestartLoop {

  import opened Prelude
  import opened Upstream
  import opened Lifecycle

  /** What one step of the machine adds to the reports. */
  function Reported(u: Up, e: Event, script: seq<Report>): seq<Report> {
    match e
    case Count(stable) => script + [Report(false, stable, false)]
    case StopSeen => script + [Report(true, false, false)]
    case SeeCancel => if u.pc == Pausing && script != [] then CutShort(script) else script
    case _ => script
  }

  function CutShort(script: seq<Report>): seq<Report>
    requires script != []
  {
    script[..|script| - 1] + [script[|script| - 1].(cancelledInPause := true)]
  }

  /** What a life tells the restart loop: one report per run that returned, with
      the pause cut short where cancellation wins it. */
  function Script(maxFailures: int, kind: Kind, es: seq<Event>): seq<Report> {
    if es == [] then []
    else
      var before := es[..|es| - 1];
      match Exec(maxFailures, Init(kind), before)
      case None => []
      case Some(u) => Reported(u, es[|es| - 1], Script(maxFailures, kind, before))
  }

  /** The loop's part of a life is over, one way or the other. */
  predicate Over(pc: PC) {
    At(pc) == Leaving || At(pc) == Left
  }

  /** The last report is of a run that has been counted, and its pause is not cut short. */
  ghost predicate JustCounted(o: Tuning, script: seq<Report>) {
    && script != [] && !script[|script| - 1].cancelled && !script[|script| - 1].cancelledInPause
    && Supervise(o, FRESH, script[..|script| - 1]).end == Starting
  }

  /** The loop function has got to where the machine stands; `counted` says that
      its last report is of a run just counted. */
  predicate Stands(l: Loop, u: Up, counted: bool) {
    && l.runs == u.runs
    && (Over(u.pc) ==> l.end == u.sh.state)
    && (!Over(u.pc) && At(u.pc) != Deciding ==> l.end == Starting)
    && (At(u.pc) == Deciding || At(u.pc) == Pausing ==> counted)
  }

  ghost predicate InStep(o: Tuning, u: Up, script: seq<Report>) {
    Stands(Supervise(o, FRESH, script), u, JustCounted(o, script))
  }

  /** One more report. */
  lemma {:induction false} SuperviseSnoc(o: Tuning, l: Loop, script: seq<Report>, r: Report)
    requires Supervise(o, l, script).end == Starting
    ensures Supervise(o, l, script + [r]) == Advance(o, Supervise(o, l, script), r)
    decreases |script|
  {
    if script == [] {
      assert (script + [r])[1..] == [];
    } else {
      assert (script + [r])[1..] == script[1..] + [r];
      SuperviseSnoc(o, Advance(o, l, script[0]), script[1..], r);
    }
  }

  lemma SplitLast(script: seq<Report>)
    requires script != []
    ensures script == script[..|script| - 1] + [script[|script| - 1]]
  {
  }

  /** The last report decides where the loop stands. */
  lemma LastReport(o: Tuning, script: seq<Report>)
    requires script != [] && Supervise(o, FRESH, script[..|script| - 1]).end == Starting
    ensures Supervise(o, FRESH, script) == Advance(o, Supervise(o, FRESH, script[..|script| - 1]), script[|script| - 1])
  {
    SplitLast(script);
    SuperviseSnoc(o, FRESH, script[..|script| - 1], script[|script| - 1]);
  }

  lemma SnocReport(o: Tuning, script: seq<Report>, r: Report)
    requires Supervise(o, FRESH, script).end == Starting
    ensures var script' := script + [r];
            && Supervise(o, FRESH, script') == Advance(o, Supervise(o, FRESH, script), r)
            && (!r.cancelled && !r.cancelledInPause ==> JustCounted(o, script'))
  {
    SuperviseSnoc(o, FRESH, script, r);
    assert (script + [r])[..|script|] == script;
  }

  lemma CountStands(o: Tuning, u: Up, l: Loop, counted: bool, stable: bool, u': Up)
    requires Stands(l, u, counted) && Next(o.maxFailures, u, Count(stable)) == Some(u')
    ensures l.end == Starting && Stands(Advance(o, l, Report(false, stable, false)), u', true)
  {
  }

  lemma CountInStep(o: Tuning, u: Up, script: seq<Report>, stable: bool, u': Up)
    requires InStep(o, u, script) && Next(o.maxFailures, u, Count(stable)) == Some(u')
    ensures InStep(o, u', script + [Report(false, stable, false)])
  {
    CountStands(o, u, Supervise(o, FRESH, script), JustCounted(o, script), stable, u');
    SnocReport(o, script, Report(false, stable, false));
  }

  lemma StopStands(o: Tuning, u: Up, l: Loop, counted: bool, u': Up, counted': bool)
    requires Stands(l, u, counted) && Next(o.maxFailures, u, StopSeen) == Some(u')
    ensures l.end == Starting && Stands(Advance(o, l, Report(true, false, false)), u', counted')
  {
  }

  lemma StopInStep(o: Tuning, u: Up, script: seq<Report>, u': Up)
    requires InStep(o, u, script) && Next(o.maxFailures, u, StopSeen) == Some(u')
    ensures InStep(o, u', script + [Report(true, false, false)])
  {
    var script' := script + [Report(true, false, false)];
    StopStands(o, u, Supervise(o, FRESH, script), JustCounted(o, script), u', JustCounted(o, script'));
    SnocReport(o, script, Report(true, false, false));
  }

  lemma CutStands(o: Tuning, u: Up, l: Loop, r: Report, u': Up, counted': bool)
    requires l.end == Starting && !r.cancelled && !r.cancelledInPause && u.pc == Pausing
    requires Stands(Advance(o, l, r), u, true) && Next(o.maxFailures, u, SeeCancel) == Some(u')
    ensures Stands(Advance(o, l, r.(cancelledInPause := true)), u', counted')
  {
  }

  lemma CutInStep(o: Tuning, u: Up, script: seq<Report>, u': Up)
    requires InStep(o, u, script) && u.pc == Pausing && Next(o.maxFailures, u, SeeCancel) == Some(u')
    ensures script != [] && InStep(o, u', CutShort(script))
  {
    var n := |script| - 1;
    LastReport(o, script);
    assert CutShort(script)[..n] == script[..n];
    LastReport(o, CutShort(script));
    CutStands(o, u, Supervise(o, FRESH, script[..n]), script[n], u', JustCounted(o, CutShort(script)));
  }

  lemma DecideStands(o: Tuning, u: Up, l: Loop, r: Report, u': Up)
    requires BudgetFits(o.maxFailures, u) && l.end == Starting && !r.cancelled && !r.cancelledInPause
    requires Stands(Advance(o, l, r), u, true) && Next(o.maxFailures, u, Decide) == Some(u')
    ensures Stands(Advance(o, l, r), u', true)
  {
  }

  lemma DecideInStep(o: Tuning, u: Up, script: seq<Report>, u': Up)
    requires BudgetFits(o.maxFailures, u) && InStep(o, u, script) && Next(o.maxFailures, u, Decide) == Some(u')
    ensures InStep(o, u', script)
  {
    LastReport(o, script);
    var n := |script| - 1;
    DecideStands(o, u, Supervise(o, FRESH, script[..n]), script[n], u');
  }

  /** The steps that are no business of the loop's. */
  predicate Other(u: Up, e: Event) {
    !e.Count? && e != StopSeen && e != Decide && !(e == SeeCancel && u.pc == Pausing)
  }

  lemma OverStays(maxFailures: int, u: Up, e: Event, u': Up)
    requires StateFits(At(u.pc), u.sh.state) && Over(u.pc) && Next(maxFailures, u, e) == Some(u')
    ensures Over(u'.pc) && u'.sh.state == u.sh.state
  {
  }

  /** The points at which the loop function waits for the machine. */
  ghost predicate SamePhase(u: Up, u': Up) {
    && (Over(u'.pc) ==> Over(u.pc))
    && (At(u'.pc) == Deciding <==> At(u.pc) == Deciding)
    && (At(u'.pc) == Pausing ==> At(u.pc) == Pausing)
  }

  lemma StartKeepsPhase(maxFailures: int, u: Up, e: Event, u': Up)
    requires StateFits(At(u.pc), u.sh.state) && Next(maxFailures, u, e) == Some(u')
    requires PhaseOf(e).EntryPhase? || PhaseOf(e).WaitingPhase?
    ensures SamePhase(u, u')
  {
  }

  lemma ConnectKeepsPhase(maxFailures: int, u: Up, e: Event, u': Up)
    requires StateFits(At(u.pc), u.sh.state) && Next(maxFailures, u, e) == Some(u')
    requires PhaseOf(e).ConnectPhase? || PhaseOf(e).ListingPhase?
    ensures SamePhase(u, u')
  {
  }

  lemma ServiceKeepsPhase(maxFailures: int, u: Up, e: Event, u': Up)
    requires StateFits(At(u.pc), u.sh.state) && Next(maxFailures, u, e) == Some(u') && Other(u, e)
    requires PhaseOf(e).PingPhase? || PhaseOf(e).ExitPhase? || PhaseOf(e).SweepPhase?
    ensures SamePhase(u, u')
  {
  }

  lemma RestKeepsPhase(maxFailures: int, u: Up, e: Event, u': Up)
    requires StateFits(At(u.pc), u.sh.state) && Next(maxFailures, u, e) == Some(u')
    requires PhaseOf(e).PausePhase? || PhaseOf(e).OutsidePhase?
    ensures SamePhase(u, u')
  {
  }

  lemma PhaseStays(maxFailures: int, u: Up, e: Event, u': Up)
    requires StateFits(At(u.pc), u.sh.state) && Next(maxFailures, u, e) == Some(u') && Other(u, e)
    ensures SamePhase(u, u')
  {
    match PhaseOf(e)
    case PingPhase => ServiceKeepsPhase(maxFailures, u, e, u');
    case ExitPhase => ServiceKeepsPhase(maxFailures, u, e, u');
    case SweepPhase => ServiceKeepsPhase(maxFailures, u, e, u');
    case PausePhase => RestKeepsPhase(maxFailures, u, e, u');
    case OutsidePhase => RestKeepsPhase(maxFailures, u, e, u');
    case ConnectPhase => ConnectKeepsPhase(maxFailures, u, e, u');
    case ListingPhase => ConnectKeepsPhase(maxFailures, u, e, u');
    case _ => StartKeepsPhase(maxFailures, u, e, u');
  }

  lemma OtherStands(maxFailures: int, u: Up, l: Loop, counted: bool, e: Event, u': Up)
    requires StateFits(At(u.pc), u.sh.state) && Stands(l, u, counted)
    requires Next(maxFailures, u, e) == Some(u') && Other(u, e)
    ensures Stands(l, u', counted)
  {
    OnlyCountingSpendsBudget(maxFailures, u, e);
    PhaseStays(maxFailures, u, e, u');
    if Over(u.pc) {
      OverStays(maxFailures, u, e, u');
    }
  }

  lemma StepInStep(o: Tuning, u: Up, script: seq<Report>, e: Event, u': Up)
    requires StateFits(At(u.pc), u.sh.state) && BudgetFits(o.maxFailures, u) && InStep(o, u, script)
    requires Next(o.maxFailures, u, e) == Some(u')
    ensures InStep(o, u', Reported(u, e, script))
  {
    EventReports(u, e, script);
    if e.Count? {
      CountInStep(o, u, script, e.stable, u');
    } else if e == StopSeen {
      StopInStep(o, u, script, u');
    } else if e == Decide {
      DecideInStep(o, u, script, u');
    } else if Other(u, e) {
      OtherInStep(o, u, script, e, u');
    } else {
      CutInStep(o, u, script, u');
    }
  }

  lemma OtherInStep(o: Tuning, u: Up, script: seq<Report>, e: Event, u': Up)
    requires StateFits(At(u.pc), u.sh.state) && InStep(o, u, script)
    requires Next(o.maxFailures, u, e) == Some(u') && Other(u, e)
    ensures InStep(o, u', script)
  {
    OtherStands(o.maxFailures, u, Supervise(o, FRESH, script), JustCounted(o, script), e, u');
  }

  lemma EventReports(u: Up, e: Event, script: seq<Report>)
    ensures Other(u, e) || e == Decide ==> Reported(u, e, script) == script
    ensures e.Count? ==> Reported(u, e, script) == script + [Report(false, e.stable, false)]
    ensures e == StopSeen ==> Reported(u, e, script) == script + [Report(true, false, false)]
    ensures e == SeeCancel && u.pc == Pausing && script != [] ==> Reported(u, e, script) == CutShort(script)
  {
  }

  /** In every run of the machine, the loop function over the reports of that run
      has counted the same runs, and ends where the machine ends: in Stopped or
      Failed once the loop is over, in Starting while it goes on. */
  lemma {:induction false} MachineFollowsLoop(o: Tuning, kind: Kind, es: seq<Event>)
    requires Exec(o.maxFailures, Init(kind), es).Some?
    ensures InStep(o, Exec(o.maxFailures, Init(kind), es).value, Script(o.maxFailures, kind, es))
  {
    if es != [] {
      var before := es[..|es| - 1];
      MachineFollowsLoop(o, kind, before);
      InvAlways(o.maxFailures, kind, before);
      StepInStep(o, Exec(o.maxFailures, Init(kind), before).value, Script(o.maxFailures, kind, before), es[|es| - 1],
                 Exec(o.maxFailures, Init(kind), es).value);
    }
  }

  /** What is proved of the loop function holds of the machine: the counters, and
      the verdict at the end. */
  lemma LifeIsLoop(o: Tuning, kind: Kind, es: seq<Event>)
    requires Exec(o.maxFailures, Init(kind), es).Some?
    ensures var u := Exec(o.maxFailures, Init(kind), es).value;
            var l := Supervise(o, FRESH, Script(o.maxFailures, kind, es));
            && l.runs == u.runs && u.sh.failures == Streak(l.runs) && u.sh.restarts == |l.runs|
            && (u.pc == Left ==> l.end == u.sh.state && l.end != Starting)
            && (u.sh.state == Failed ==> l.end == Failed)
  {
    MachineFollowsLoop(o, kind, es);
    InvAlways(o.maxFailures, kind, es);
    var script := Script(o.maxFailures, kind, es);
    StandsTells(o, Exec(o.maxFailures, Init(kind), es).value, Supervise(o, FRESH, script), JustCounted(o, script));
  }

  lemma StandsTells(o: Tuning, u: Up, l: Loop, counted: bool)
    requires Stands(l, u, counted) && StateFits(At(u.pc), u.sh.state) && BudgetFits(o.maxFailures, u)
    ensures l.runs == u.runs && u.sh.failures == Streak(l.runs) && u.sh.restarts == |l.runs|
    ensures u.pc == Left ==> l.end == u.sh.state && l.end != Starting
    ensures u.sh.state == Failed ==> l.end == Failed
  {
  }
}
