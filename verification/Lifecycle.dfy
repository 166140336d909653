/** The run loop of one upstream as a step system, with its list-changed
    handlers, its process groups and its startup callback. Every locked section
    and every blocking operation is one step; any interleaving is allowed. */
module Lifecycle {

  import opened Prelude
  import opened ToolTable
  import opened Upstream

  datatype Kind = Stdio | Remote | RemoteOAuth

  /** Where the run loop stands. */
  datatype PC =
    | Launch                               // about to call runOnce
    | AskHandler                           // asking the provider for a token handler
    | Parking                              // about to report the first settled state
    | Parked                               // waiting for credentials
    | Connecting(group: nat)               // 0 until the child has been started
    | Listing                              // first tool listing of the session
    | Announcing                           // about to become Ready
    | Settling                             // about to report the first settled state
    | Serving(ticking: bool, pinged: bool)
    | Closing                              // about to shut the session and group down
    | Cleaning                             // deferred cleanup of runOnce
    | Ended                                // runOnce has returned
    | Deciding                             // run counted, next state not yet written
    | Pausing                              // backoff
    | Leaving                              // deferred calls of run
    | Left
    | Notifying(next: PC)                  // state written, OnChange not yet returned

  /** One upstream with its run loop. `groups` are the process groups started and
      not yet swept with SIGKILL; `owed` counts handlers that still have to
      notify; `runs` records the counted runs. */
  datatype Up = Up(
    kind: Kind, sh: Shared, pc: PC, groups: set<nat>,
    armed: bool, fired: nat, doneClosed: nat, cancelled: bool, owed: nat,
    runs: seq<bool>)

  function Init(kind: Kind): Up {
    Up(kind, NEW, Launch, {}, true, 0, 0, false, 0, [])
  }

  datatype Event =
    | Cancel
    | Begin
    | HandlerFound | HandlerError | LoginRequired
    | Park | CredentialsArrived | WaitFailed
    | Spawn(group: nat) | Connected | ConnectFailed
    | FirstList(tools: seq<Tool>) | FirstListFailed
    | Announce
    | Settle(skipPing: bool)
    | SeeCancel | ChildExited
    | PingOk | PingWhileCancelled | PingUnsupported | PingFailed
    | Shutdown
    | CleanUp
    | StopSeen | Count(stable: bool)
    | Decide
    | TimerFired
    | Leave
    | Notified
    | HandlerStores(tools: seq<Tool>) | HandlerNotified

  /** setState up to its call of OnChange. */
  function Write(u: Up, st: State, next: PC): Up {
    u.(sh := u.sh.(state := st), pc := Notifying(next))
  }

  /** signalFirst: fires the startup callback unless it has fired. */
  function Signal(u: Up, next: PC): Up {
    u.(fired := u.fired + (if u.armed then 1 else 0), armed := false, pc := next)
  }

  /** killGroup(pid) and what a shutdown leaves of the group. */
  function Sweep(u: Up, pid: nat, next: PC): Up {
    u.(groups := u.groups - {pid}, pc := next)
  }

  function Goto(u: Up, next: PC): Up { u.(pc := next) }

  /** One step, or None where the event cannot happen. */
  function Next(maxFailures: int, u: Up, e: Event): Option<Up> {
    match e
    case Cancel => Some(u.(cancelled := true))
    case Begin =>
      if u.pc != Launch then None
      else Some(Goto(u, if u.kind == RemoteOAuth then AskHandler else Connecting(0)))
    case HandlerFound => if u.pc == AskHandler then Some(Goto(u, Connecting(0))) else None
    case HandlerError => if u.pc == AskHandler then Some(Goto(u, Ended)) else None
    case LoginRequired => if u.pc == AskHandler then Some(Write(u, NeedsLogin, Parking)) else None
    case Park => if u.pc == Parking then Some(Signal(u, Parked)) else None
    case CredentialsArrived => if u.pc == Parked then Some(Write(u, Starting, AskHandler)) else None
    case WaitFailed => if u.pc == Parked then Some(Goto(u, Ended)) else None
    case Spawn(g) =>
      if u.pc == Connecting(0) && u.kind == Stdio && g > 0 && g !in u.groups
      then Some(u.(groups := u.groups + {g}, pc := Connecting(g))) else None
    case Connected =>
      if u.pc.Connecting? && (u.kind == Stdio <==> u.pc.group > 0)
      then Some(u.(sh := u.sh.(session := true, pid := u.pc.group), pc := Listing)) else None
    case ConnectFailed => if u.pc.Connecting? then Some(Sweep(u, u.pc.group, Ended)) else None
    case FirstList(tools) =>
      if u.pc != Listing then None
      else
        var u' := u.(sh := u.sh.(tools := tools));
        Some(Goto(u', if u.sh.state == Ready then Notifying(Announcing) else Announcing))
    case FirstListFailed => if u.pc == Listing then Some(Goto(u, Closing)) else None
    case Announce => if u.pc == Announcing then Some(Write(u, Ready, Settling)) else None
    case Settle(skipPing) =>
      if u.pc != Settling then None
      else Some(Signal(u, Serving(!skipPing && !u.sh.pingBroken, false)))
    case SeeCancel =>
      if !u.cancelled then None
      else if u.pc.Serving? then Some(Write(u, Stopped, Closing))
      else if u.pc == Pausing then Some(Write(u, Stopped, Leaving))
      else None
    case ChildExited => if u.pc.Serving? then Some(Sweep(u, u.sh.pid, Cleaning)) else None
    case PingOk => if u.pc.Serving? && u.pc.ticking then Some(Goto(u, Serving(true, true))) else None
    case PingWhileCancelled => if u.pc.Serving? && u.pc.ticking && u.cancelled then Some(u) else None
    case PingUnsupported =>
      if u.pc.Serving? && u.pc.ticking && !u.pc.pinged
      then Some(u.(sh := u.sh.(pingBroken := true), pc := Serving(false, false))) else None
    case PingFailed => if u.pc.Serving? && u.pc.ticking then Some(Goto(u, Closing)) else None
    case Shutdown => if u.pc == Closing then Some(Sweep(u, u.sh.pid, Cleaning)) else None
    case CleanUp => if u.pc == Cleaning then Some(u.(sh := TornDown(u.sh), pc := Ended)) else None
    case StopSeen => if u.pc == Ended && u.cancelled then Some(Write(u, Stopped, Leaving)) else None
    case Count(stable) =>
      if u.pc == Ended && !u.cancelled
      then Some(u.(sh := Counted(u.sh, stable), runs := u.runs + [stable], pc := Deciding)) else None
    case Decide =>
      if u.pc != Deciding then None
      else if u.sh.failures >= maxFailures then Some(Write(u, Failed, Leaving))
      else Some(Write(u, Starting, Pausing))
    case TimerFired => if u.pc == Pausing then Some(Goto(u, Launch)) else None
    case Leave => if u.pc == Leaving then Some(Signal(u, Left).(doneClosed := u.doneClosed + 1)) else None
    case Notified => if u.pc.Notifying? then Some(Goto(u, u.pc.next)) else None
    case HandlerStores(tools) =>
      Some(u.(sh := u.sh.(tools := tools), owed := u.owed + (if u.sh.state == Ready then 1 else 0)))
    case HandlerNotified => if u.owed > 0 then Some(u.(owed := u.owed - 1)) else None
  }

  function Exec(maxFailures: int, u: Up, es: seq<Event>): Option<Up> {
    if es == [] then Some(u)
    else match Exec(maxFailures, u, es[..|es| - 1])
      case None => None
      case Some(v) => Next(maxFailures, v, es[|es| - 1])
  }

  /** The point the loop is at, or is on its way to while it notifies. */
  function At(pc: PC): PC {
    if pc.Notifying? then pc.next else pc
  }

  /** The states the upstream can be in at each point; a loop that is notifying
      is judged by where it goes next. */
  predicate StateFits(at: PC, st: State) {
    match at
    case Launch | AskHandler | Connecting(_) | Listing | Announcing | Pausing => st == Starting
    case Parking | Parked => st == NeedsLogin
    case Settling | Serving(_, _) => st == Ready
    case Closing | Cleaning => st == Starting || st == Ready || st == Stopped
    case Ended => st != Failed
    case Deciding => st != Failed && st != Stopped
    case Leaving | Left => st == Failed || st == Stopped
    case Notifying(_) => false
  }

  predicate HasSession(pc: PC) {
    pc.Listing? || pc.Announcing? || pc.Settling? || pc.Serving? || pc.Closing? || pc.Cleaning?
  }

  /** The groups an upstream owns at each point: its session's own, until swept. */
  ghost predicate GroupsFit(u: Up) {
    var at := At(u.pc);
    && (HasSession(at) <==> u.sh.session)
    && (u.sh.session ==> (u.kind == Stdio <==> u.sh.pid > 0))
    && (!u.sh.session ==> u.sh.pid == 0)
    && (at.Connecting? && at.group > 0 ==> u.kind == Stdio)
    && (at.Connecting? ==> u.groups == if at.group > 0 then {at.group} else {})
    && (HasSession(at) && !at.Cleaning? ==> u.groups == if u.sh.pid > 0 then {u.sh.pid} else {})
    && (!at.Connecting? && (!HasSession(at) || at.Cleaning?) ==> u.groups == {})
  }

  predicate Allowed(from: State, to: State) {
    match from
    case Starting => true
    case Ready => to != NeedsLogin
    case NeedsLogin => to != Ready
    case Failed => false
    case Stopped => to == Stopped
  }

  ghost predicate BudgetFits(maxFailures: int, u: Up) {
    var at := At(u.pc);
    && u.sh.failures == Streak(u.runs) && u.sh.restarts == |u.runs|
    && Below(maxFailures, u.runs, |u.runs|)
    && (at == Deciding || u.sh.state == Failed || u.runs == [] || u.sh.failures < maxFailures)
    && (at == Deciding ==> u.runs != [])
    && (u.sh.state == Failed ==> u.runs != [] && u.sh.failures >= maxFailures)
  }

  ghost predicate SignalFits(u: Up) {
    var at := At(u.pc);
    && u.fired + (if u.armed then 1 else 0) == 1
    && (at.Serving? || at == Parked || at == Left ==> !u.armed)
    && u.doneClosed == if u.pc == Left then 1 else 0
  }

  ghost predicate Inv(maxFailures: int, u: Up) {
    && StateFits(At(u.pc), u.sh.state)
    && (u.pc == Notifying(Closing) ==> u.sh.state == Stopped) && u.pc != Notifying(Left)
    && (u.sh.state == Stopped ==> u.cancelled)
    && GroupsFit(u)
    && BudgetFits(maxFailures, u)
    && SignalFits(u)
  }

  /** The parts of the protocol, which the preservation proof takes one by one. */
  datatype Phase =
    | EntryPhase
    | WaitingPhase
    | ConnectPhase
    | ListingPhase
    | PingPhase
    | ExitPhase
    | SweepPhase
    | VerdictPhase
    | PausePhase
    | CountPhase
    | OutsidePhase

  function PhaseOf(e: Event): Phase {
    match e
    case Begin | HandlerFound | HandlerError | LoginRequired => EntryPhase
    case Park | CredentialsArrived | WaitFailed => WaitingPhase
    case Spawn(_) | Connected | ConnectFailed => ConnectPhase
    case FirstList(_) | FirstListFailed | Announce | Settle(_) => ListingPhase
    case PingOk | PingWhileCancelled | PingUnsupported | PingFailed => PingPhase
    case SeeCancel | ChildExited => ExitPhase
    case Shutdown | CleanUp => SweepPhase
    case StopSeen | Decide => VerdictPhase
    case TimerFired | Leave => PausePhase
    case Count(_) => CountPhase
    case Cancel | Notified | HandlerStores(_) | HandlerNotified => OutsidePhase
  }

  ghost predicate Kept(maxFailures: int, u: Up, e: Event) {
    Next(maxFailures, u, e).Some? ==> Inv(maxFailures, Next(maxFailures, u, e).value)
  }

  lemma EntryKeeps(maxFailures: int, u: Up, e: Event)
    requires Inv(maxFailures, u) && PhaseOf(e) == EntryPhase
    ensures Kept(maxFailures, u, e)
  {
    if e.Begin? || e.HandlerFound? {
      EnterRunKeeps(maxFailures, u, e);
    } else {
      NoHandlerKeeps(maxFailures, u, e);
    }
  }

  lemma EnterRunKeeps(maxFailures: int, u: Up, e: Event)
    requires Inv(maxFailures, u) && (e.Begin? || e.HandlerFound?)
    ensures Kept(maxFailures, u, e)
  {
  }

  lemma NoHandlerKeeps(maxFailures: int, u: Up, e: Event)
    requires Inv(maxFailures, u) && (e.HandlerError? || e.LoginRequired?)
    ensures Kept(maxFailures, u, e)
  {
  }

  lemma WaitingKeeps(maxFailures: int, u: Up, e: Event)
    requires Inv(maxFailures, u) && PhaseOf(e) == WaitingPhase
    ensures Kept(maxFailures, u, e)
  {
    if e.Park? {
      ParkKeeps(maxFailures, u, e);
    } else {
      WaitOverKeeps(maxFailures, u, e);
    }
  }

  lemma ParkKeeps(maxFailures: int, u: Up, e: Event)
    requires Inv(maxFailures, u) && e.Park?
    ensures Kept(maxFailures, u, e)
  {
  }

  lemma WaitOverKeeps(maxFailures: int, u: Up, e: Event)
    requires Inv(maxFailures, u) && (e.CredentialsArrived? || e.WaitFailed?)
    ensures Kept(maxFailures, u, e)
  {
  }

  lemma ConnectKeeps(maxFailures: int, u: Up, e: Event)
    requires Inv(maxFailures, u) && PhaseOf(e) == ConnectPhase
    ensures Kept(maxFailures, u, e)
  {
    if e.Spawn? {
      SpawnKeeps(maxFailures, u, e);
    } else {
      ConnectEndKeeps(maxFailures, u, e);
    }
  }

  lemma SpawnKeeps(maxFailures: int, u: Up, e: Event)
    requires Inv(maxFailures, u) && e.Spawn?
    ensures Kept(maxFailures, u, e)
  {
  }

  lemma ConnectEndKeeps(maxFailures: int, u: Up, e: Event)
    requires Inv(maxFailures, u) && (e.Connected? || e.ConnectFailed?)
    ensures Kept(maxFailures, u, e)
  {
  }

  lemma ListingKeeps(maxFailures: int, u: Up, e: Event)
    requires Inv(maxFailures, u) && PhaseOf(e) == ListingPhase
    ensures Kept(maxFailures, u, e)
  {
    if e.FirstList? || e.FirstListFailed? {
      FirstListKeeps(maxFailures, u, e);
    } else {
      AnnounceKeeps(maxFailures, u, e);
    }
  }

  lemma FirstListKeeps(maxFailures: int, u: Up, e: Event)
    requires Inv(maxFailures, u) && (e.FirstList? || e.FirstListFailed?)
    ensures Kept(maxFailures, u, e)
  {
  }

  lemma AnnounceKeeps(maxFailures: int, u: Up, e: Event)
    requires Inv(maxFailures, u) && (e.Announce? || e.Settle?)
    ensures Kept(maxFailures, u, e)
  {
  }

  lemma PingKeeps(maxFailures: int, u: Up, e: Event)
    requires Inv(maxFailures, u) && PhaseOf(e) == PingPhase
    ensures Kept(maxFailures, u, e)
  {
    if e.PingOk? || e.PingWhileCancelled? {
      PingAnswerKeeps(maxFailures, u, e);
    } else {
      PingEndKeeps(maxFailures, u, e);
    }
  }

  lemma PingAnswerKeeps(maxFailures: int, u: Up, e: Event)
    requires Inv(maxFailures, u) && (e.PingOk? || e.PingWhileCancelled?)
    ensures Kept(maxFailures, u, e)
  {
  }

  lemma PingEndKeeps(maxFailures: int, u: Up, e: Event)
    requires Inv(maxFailures, u) && (e.PingUnsupported? || e.PingFailed?)
    ensures Kept(maxFailures, u, e)
  {
  }

  lemma ExitKeeps(maxFailures: int, u: Up, e: Event)
    requires Inv(maxFailures, u) && PhaseOf(e) == ExitPhase
    ensures Kept(maxFailures, u, e)
  {
  }

  lemma SweepKeeps(maxFailures: int, u: Up, e: Event)
    requires Inv(maxFailures, u) && PhaseOf(e) == SweepPhase
    ensures Kept(maxFailures, u, e)
  {
  }

  lemma VerdictKeeps(maxFailures: int, u: Up, e: Event)
    requires Inv(maxFailures, u) && PhaseOf(e) == VerdictPhase
    ensures Kept(maxFailures, u, e)
  {
    match e
    case StopSeen => StopSeenKeeps(maxFailures, u);
    case Decide => DecideKeeps(maxFailures, u);
  }

  lemma StopSeenKeeps(maxFailures: int, u: Up)
    requires Inv(maxFailures, u)
    ensures Kept(maxFailures, u, StopSeen)
  {
  }

  lemma DecideKeeps(maxFailures: int, u: Up)
    requires Inv(maxFailures, u)
    ensures Kept(maxFailures, u, Decide)
  {
    if u.pc == Deciding && u.sh.failures >= maxFailures {
      GiveUpKeeps(maxFailures, u);
    } else if u.pc == Deciding {
      RetryKeeps(maxFailures, u);
    }
  }

  lemma GiveUpKeeps(maxFailures: int, u: Up)
    requires Inv(maxFailures, u) && u.pc == Deciding && u.sh.failures >= maxFailures
    ensures Inv(maxFailures, Write(u, Failed, Leaving))
  {
  }

  lemma RetryKeeps(maxFailures: int, u: Up)
    requires Inv(maxFailures, u) && u.pc == Deciding && u.sh.failures < maxFailures
    ensures Inv(maxFailures, Write(u, Starting, Pausing))
  {
  }

  lemma PauseKeeps(maxFailures: int, u: Up, e: Event)
    requires Inv(maxFailures, u) && PhaseOf(e) == PausePhase
    ensures Kept(maxFailures, u, e)
  {
  }

  lemma OutsideKeeps(maxFailures: int, u: Up, e: Event)
    requires Inv(maxFailures, u) && PhaseOf(e) == OutsidePhase
    ensures Kept(maxFailures, u, e)
  {
    if e.Cancel? || e.Notified? {
      NotifiedKeeps(maxFailures, u, e);
    } else {
      HandlerKeeps(maxFailures, u, e);
    }
  }

  lemma NotifiedKeeps(maxFailures: int, u: Up, e: Event)
    requires Inv(maxFailures, u) && (e.Cancel? || e.Notified?)
    ensures Kept(maxFailures, u, e)
  {
  }

  lemma HandlerKeeps(maxFailures: int, u: Up, e: Event)
    requires Inv(maxFailures, u) && (e.HandlerStores? || e.HandlerNotified?)
    ensures Kept(maxFailures, u, e)
  {
  }

  lemma CountKeeps(maxFailures: int, u: Up, e: Event)
    requires Inv(maxFailures, u) && e.Count?
    ensures Kept(maxFailures, u, e)
  {
    if Next(maxFailures, u, e).Some? {
      CountKeepsBudget(maxFailures, u.runs, e.stable);
      CountedBudget(maxFailures, u, e.stable);
    }
  }

  lemma CountedBudget(maxFailures: int, u: Up, stable: bool)
    requires BudgetFits(maxFailures, u) && u.pc == Ended && u.sh.state != Failed
    requires Below(maxFailures, u.runs + [stable], |u.runs| + 1)
    requires Streak(u.runs + [stable]) == (if stable then 0 else Streak(u.runs)) + 1
    ensures BudgetFits(maxFailures, u.(sh := Counted(u.sh, stable), runs := u.runs + [stable], pc := Deciding))
  {
  }

  lemma CountKeepsBudget(maxFailures: int, runs: seq<bool>, stable: bool)
    requires Below(maxFailures, runs, |runs|) && (runs == [] || Streak(runs) < maxFailures)
    ensures Below(maxFailures, runs + [stable], |runs| + 1)
    ensures Streak(runs + [stable]) == (if stable then 0 else Streak(runs)) + 1
  {
    assert runs[..|runs|] == runs;
    BelowExtends(maxFailures, runs, stable);
    assert (runs + [stable])[..|runs|] == runs;
  }

  lemma InvStep(maxFailures: int, u: Up, e: Event)
    requires Inv(maxFailures, u) && Next(maxFailures, u, e).Some?
    ensures Inv(maxFailures, Next(maxFailures, u, e).value)
  {
    match PhaseOf(e)
    case EntryPhase => EntryKeeps(maxFailures, u, e);
    case WaitingPhase => WaitingKeeps(maxFailures, u, e);
    case ConnectPhase => ConnectKeeps(maxFailures, u, e);
    case ListingPhase => ListingKeeps(maxFailures, u, e);
    case PingPhase => PingKeeps(maxFailures, u, e);
    case ExitPhase => ExitKeeps(maxFailures, u, e);
    case SweepPhase => SweepKeeps(maxFailures, u, e);
    case VerdictPhase => VerdictKeeps(maxFailures, u, e);
    case PausePhase => PauseKeeps(maxFailures, u, e);
    case CountPhase => CountKeeps(maxFailures, u, e);
    case OutsidePhase => OutsideKeeps(maxFailures, u, e);
  }

  lemma {:induction false} InvAlways(maxFailures: int, kind: Kind, es: seq<Event>)
    requires Exec(maxFailures, Init(kind), es).Some?
    ensures Inv(maxFailures, Exec(maxFailures, Init(kind), es).value)
  {
    if es != [] {
      InvAlways(maxFailures, kind, es[..|es| - 1]);
      InvStep(maxFailures, Exec(maxFailures, Init(kind), es[..|es| - 1]).value, es[|es| - 1]);
    }
  }

  /** An upstream reachable from its initial state. */
  ghost predicate Reachable(maxFailures: int, u: Up) {
    exists kind, es :: Exec(maxFailures, Init(kind), es) == Some(u)
  }

  lemma ReachableInv(maxFailures: int, u: Up)
    requires Reachable(maxFailures, u)
    ensures Inv(maxFailures, u)
  {
    var kind, es :| Exec(maxFailures, Init(kind), es) == Some(u);
    InvAlways(maxFailures, kind, es);
  }

  /** An upstream never owns two process groups; remote upstreams own none; and
      whenever runOnce has returned, on any path, the group it started is swept. */
  lemma OneProcessGroup(maxFailures: int, u: Up)
    requires Reachable(maxFailures, u)
    ensures |u.groups| <= 1
    ensures u.kind != Stdio ==> u.groups == {}
    ensures At(u.pc) in {Launch, AskHandler, Parking, Parked, Ended, Deciding, Pausing, Leaving, Left} ==> u.groups == {}
    ensures u.groups != {} && u.sh.session ==> u.groups == {u.sh.pid}
  {
    ReachableInv(maxFailures, u);
  }

  /** The startup callback never fires twice, has fired by the time the upstream
      serves or waits for a login, and has fired exactly once when the loop is
      done, which closes `done` exactly once. */
  lemma StartupSignalledOnce(maxFailures: int, u: Up)
    requires Reachable(maxFailures, u)
    ensures u.fired <= 1 && u.doneClosed <= 1
    ensures u.pc.Serving? || u.pc == Parked || u.pc == Left ==> u.fired == 1
    ensures u.doneClosed == 1 <==> u.pc == Left
  {
    ReachableInv(maxFailures, u);
  }

  /** The steps that signal: parking for a login, becoming ready, and the end. */
  predicate Signals(e: Event) {
    e.Park? || e.Settle? || e.Leave?
  }

  lemma SignalStep(maxFailures: int, u: Up, e: Event)
    requires Inv(maxFailures, u) && Next(maxFailures, u, e).Some?
    ensures Next(maxFailures, u, e).value.fired == if Signals(e) then 1 else u.fired
  {
  }

  /** The startup callback has fired exactly when the loop has parked, become ready
      or ended: nothing else settles a start, a failed one included. */
  lemma {:induction false} FiredIff(maxFailures: int, kind: Kind, es: seq<Event>)
    requires Exec(maxFailures, Init(kind), es).Some?
    ensures Exec(maxFailures, Init(kind), es).value.fired == 1 <==> exists k :: 0 <= k < |es| && Signals(es[k])
  {
    InvAlways(maxFailures, kind, es);
    if es != [] {
      var before := es[..|es| - 1];
      FiredIff(maxFailures, kind, before);
      InvAlways(maxFailures, kind, before);
      SignalStep(maxFailures, Exec(maxFailures, Init(kind), before).value, es[|es| - 1]);
      assert forall k :: 0 <= k < |es| - 1 ==> es[k] == before[k];
    }
  }

  /** Over a whole run: the counter is the streak of counted runs, it was below
      the maximum after every earlier run, and the upstream is Failed exactly
      when the loop has passed its verdict on a streak that reached the maximum. */
  lemma RestartBudget(maxFailures: int, u: Up)
    requires Reachable(maxFailures, u)
    ensures u.sh.failures == Streak(u.runs) && u.sh.restarts == |u.runs|
    ensures forall k :: 0 < k < |u.runs| ==> Streak(u.runs[..k]) < maxFailures
    ensures u.sh.state == Failed <==> u.runs != [] && Streak(u.runs) >= maxFailures && At(u.pc) != Deciding
  {
    ReachableInv(maxFailures, u);
  }

  /** Steps of the login wait, and every other step but the count itself, leave
      the restart budget alone. */
  lemma OnlyCountingSpendsBudget(maxFailures: int, u: Up, e: Event)
    requires Next(maxFailures, u, e).Some? && !e.Count?
    ensures var u' := Next(maxFailures, u, e).value;
            u'.sh.failures == u.sh.failures && u'.sh.restarts == u.sh.restarts && u'.runs == u.runs
  {
  }

  /** Every change of state is an allowed one: Ready never goes straight to
      NeedsLogin, Failed goes nowhere and Stopped stays. */
  lemma StateMoves(maxFailures: int, u: Up, e: Event)
    requires Reachable(maxFailures, u) && Next(maxFailures, u, e).Some?
    ensures var u' := Next(maxFailures, u, e).value;
            u'.sh.state == u.sh.state || Allowed(u.sh.state, u'.sh.state)
  {
    ReachableInv(maxFailures, u);
    if Writes(e) {
      WriteMoves(maxFailures, u, e);
    } else {
      OthersKeepState(maxFailures, u, e);
    }
  }

  /** The steps that call setState. */
  predicate Writes(e: Event) {
    e.LoginRequired? || e.CredentialsArrived? || e.Announce? || e.SeeCancel? || e.StopSeen? || e.Decide?
  }

  lemma WriteMoves(maxFailures: int, u: Up, e: Event)
    requires Inv(maxFailures, u) && Next(maxFailures, u, e).Some? && Writes(e)
    ensures Allowed(u.sh.state, Next(maxFailures, u, e).value.sh.state)
  {
  }

  lemma OthersKeepState(maxFailures: int, u: Up, e: Event)
    requires Next(maxFailures, u, e).Some? && !Writes(e)
    ensures Next(maxFailures, u, e).value.sh.state == u.sh.state
  {
  }

  lemma FinalStateStep(maxFailures: int, u: Up, e: Event)
    requires Inv(maxFailures, u) && u.sh.state in {Failed, Stopped} && Next(maxFailures, u, e).Some?
    ensures Next(maxFailures, u, e).value.sh.state == u.sh.state
  {
  }

  /** Failed and Stopped are absorbing over every continuation. */
  lemma {:induction false} FinalStatesAbsorb(maxFailures: int, u: Up, es: seq<Event>)
    requires Reachable(maxFailures, u) && (u.sh.state == Failed || u.sh.state == Stopped)
    requires Exec(maxFailures, u, es).Some?
    ensures var v := Exec(maxFailures, u, es).value; Reachable(maxFailures, v) && v.sh.state == u.sh.state
  {
    if es != [] {
      var before := es[..|es| - 1];
      FinalStatesAbsorb(maxFailures, u, before);
      var v := Exec(maxFailures, u, before).value;
      ReachableInv(maxFailures, v);
      FinalStateStep(maxFailures, v, es[|es| - 1]);
      ReachStep(maxFailures, v, es[|es| - 1], Exec(maxFailures, u, es).value);
    }
  }

  /** The steps that write the tool list. */
  predicate Touches(e: Event) {
    e.FirstList? || e.HandlerStores? || e.CleanUp?
  }

  ghost predicate LastTouch(es: seq<Event>, j: nat) {
    j < |es| && Touches(es[j]) && forall k :: j < k < |es| ==> !Touches(es[k])
  }

  lemma TouchStep(maxFailures: int, u: Up, e: Event)
    requires Next(maxFailures, u, e).Some?
    ensures Next(maxFailures, u, e).value.sh.tools ==
            if e.FirstList? || e.HandlerStores? then e.tools else if e.CleanUp? then [] else u.sh.tools
  {
  }

  /** In every run the tools are those of the last first listing or list-changed
      handler, unless the session has been cleaned up since; then there are none. */
  lemma {:induction false} ToolsAreLastStored(maxFailures: int, kind: Kind, es: seq<Event>)
    requires Exec(maxFailures, Init(kind), es).Some?
    ensures var tools := Exec(maxFailures, Init(kind), es).value.sh.tools;
            && (forall j: nat :: LastTouch(es, j) ==> tools == if es[j].CleanUp? then [] else es[j].tools)
            && ((forall j :: 0 <= j < |es| ==> !Touches(es[j])) ==> tools == [])
  {
    if es != [] {
      var before, e := es[..|es| - 1], es[|es| - 1];
      ToolsAreLastStored(maxFailures, kind, before);
      TouchStep(maxFailures, Exec(maxFailures, Init(kind), before).value, e);
      forall j: nat | LastTouch(es, j) && j < |before| ensures LastTouch(before, j) && before[j] == es[j] {
        TouchIn(es, j);
      }
      assert forall j :: 0 <= j < |before| ==> before[j] == es[j];
    }
  }

  lemma TouchIn(es: seq<Event>, j: nat)
    requires es != [] && j < |es| - 1
    ensures LastTouch(es, j) <==> LastTouch(es[..|es| - 1], j) && !Touches(es[|es| - 1])
  {
    assert forall k :: j <= k < |es| - 1 ==> es[..|es| - 1][k] == es[k];
  }

  /** The session has listed its tools and is up. */
  predicate HasList(pc: PC) {
    At(pc).Announcing? || At(pc).Settling? || At(pc).Serving?
  }

  lemma ListedStep(maxFailures: int, u: Up, e: Event)
    requires StateFits(At(u.pc), u.sh.state) && Next(maxFailures, u, e).Some? && HasList(Next(maxFailures, u, e).value.pc)
    ensures !e.CleanUp? && (HasList(u.pc) || e.FirstList?)
  {
    if PhaseOf(e).ListingPhase? || PhaseOf(e).PingPhase? || PhaseOf(e).ExitPhase? || PhaseOf(e).SweepPhase? {
      ServiceListedStep(maxFailures, u, e);
    } else {
      OtherListedStep(maxFailures, u, e);
    }
  }

  lemma ServiceListedStep(maxFailures: int, u: Up, e: Event)
    requires PhaseOf(e).ListingPhase? || PhaseOf(e).PingPhase? || PhaseOf(e).ExitPhase? || PhaseOf(e).SweepPhase?
    requires StateFits(At(u.pc), u.sh.state) && Next(maxFailures, u, e).Some? && HasList(Next(maxFailures, u, e).value.pc)
    ensures !e.CleanUp? && (HasList(u.pc) || e.FirstList?)
  {
  }

  lemma OtherListedStep(maxFailures: int, u: Up, e: Event)
    requires !(PhaseOf(e).ListingPhase? || PhaseOf(e).PingPhase? || PhaseOf(e).ExitPhase? || PhaseOf(e).SweepPhase?)
    requires StateFits(At(u.pc), u.sh.state) && Next(maxFailures, u, e).Some? && HasList(Next(maxFailures, u, e).value.pc)
    ensures !e.CleanUp? && (HasList(u.pc) || e.FirstList?)
  {
  }

  /** While an upstream serves, its list has been stored and not been cleaned up since. */
  lemma {:induction false} ServingHasList(maxFailures: int, kind: Kind, es: seq<Event>)
    requires Exec(maxFailures, Init(kind), es).Some? && HasList(Exec(maxFailures, Init(kind), es).value.pc)
    ensures exists j: nat :: LastTouch(es, j) && !es[j].CleanUp?
                             && Exec(maxFailures, Init(kind), es).value.sh.tools == es[j].tools
  {
    ToolsAreLastStored(maxFailures, kind, es);
    StoredInService(maxFailures, kind, es);
  }

  lemma {:induction false} StoredInService(maxFailures: int, kind: Kind, es: seq<Event>)
    requires Exec(maxFailures, Init(kind), es).Some? && HasList(Exec(maxFailures, Init(kind), es).value.pc)
    ensures exists j: nat :: LastTouch(es, j) && !es[j].CleanUp?
  {
    var before, e := es[..|es| - 1], es[|es| - 1];
    InvAlways(maxFailures, kind, before);
    ListedStep(maxFailures, Exec(maxFailures, Init(kind), before).value, e);
    if Touches(e) {
      assert LastTouch(es, |es| - 1);
    } else {
      StoredInService(maxFailures, kind, before);
      var j: nat :| LastTouch(before, j) && !before[j].CleanUp?;
      TouchIn(es, j);
    }
  }

  lemma InitReachable(maxFailures: int, kind: Kind)
    ensures Reachable(maxFailures, Init(kind))
  {
    assert Exec(maxFailures, Init(kind), []) == Some(Init(kind));
  }

  lemma ReachStep(maxFailures: int, u: Up, e: Event, u': Up)
    requires Reachable(maxFailures, u) && Next(maxFailures, u, e) == Some(u')
    ensures Reachable(maxFailures, u')
  {
    var kind, es :| Exec(maxFailures, Init(kind), es) == Some(u);
    assert (es + [e])[..|es|] == es;
    assert Exec(maxFailures, Init(kind), es + [e]) == Next(maxFailures, u, e);
  }

  lemma FirstConnectCanFail(maxFailures: int) returns (u: Up)
    ensures Reachable(maxFailures, u) && u == Sweep(Init(Stdio), 0, Ended)
  {
    InitReachable(maxFailures, Stdio);
    var u1 := Goto(Init(Stdio), Connecting(0));
    ReachStep(maxFailures, Init(Stdio), Begin, u1);
    u := Sweep(u1, 0, Ended);
    ReachStep(maxFailures, u1, ConnectFailed, u);
  }

  /** Start's comment counts a failed first start as settled; the code does not:
      after one failed connect the loop can be in its pause with the callback
      unfired. */
  lemma FailedFirstStartDoesNotSettle(maxFailures: int) returns (u: Up)
    requires maxFailures >= 2
    ensures Reachable(maxFailures, u) && |u.runs| == 1 && u.pc == Pausing && u.fired == 0
  {
    var u2 := FirstConnectCanFail(maxFailures);
    var u3 := u2.(sh := Counted(u2.sh, false), runs := u2.runs + [false], pc := Deciding);
    ReachStep(maxFailures, u2, Count(false), u3);
    var u4 := Write(u3, Starting, Pausing);
    ReachStep(maxFailures, u3, Decide, u4);
    u := Goto(u4, Pausing);
    ReachStep(maxFailures, u4, Notified, u);
  }
}
