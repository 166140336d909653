/** What the run loop of an upstream can always still do, and what its login and its
    pings depend on. */
module Liveness {

  import opened Prelude
  import opened ToolTable
  import opened Upstream
  import opened Lifecycle

  lemma {:induction false} ExecConcat(maxFailures: int, u: Up, a: seq<Event>, b: seq<Event>)
    requires Exec(maxFailures, u, a).Some?
    ensures Exec(maxFailures, u, a + b) == Exec(maxFailures, Exec(maxFailures, u, a).value, b)
  {
    if b == [] {
      assert a + b == a;
    } else {
      assert (a + b)[..|a + b| - 1] == a + b[..|b| - 1];
      ExecConcat(maxFailures, u, a, b[..|b| - 1]);
    }
  }

  lemma ExecFirst(maxFailures: int, u: Up, e: Event, u': Up, es: seq<Event>)
    requires Next(maxFailures, u, e) == Some(u')
    ensures Exec(maxFailures, u, [e] + es) == Exec(maxFailures, u', es)
  {
    assert [e][..0] == [] && Exec(maxFailures, u, []) == Some(u);
    assert Exec(maxFailures, u, [e]) == Some(u');
    ExecConcat(maxFailures, u, [e], es);
  }

  // ---------------------------------------------------------------- to service

  /** The verdict has been passed, or is bound to be: the loop ends. */
  predicate Doomed(maxFailures: int, u: Up) {
    || At(u.pc) == Leaving || At(u.pc) == Left
    || (At(u.pc) == Deciding && u.sh.failures >= maxFailures)
  }

  /** Steps left until the upstream serves, at the most. */
  function Distance(u: Up): nat {
    2 * (match At(u.pc)
         case Serving(_, _) => 0
         case Settling => 1
         case Announcing => 2
         case Listing => 3
         case Connecting(g) => if u.kind == Stdio && g == 0 then 5 else 4
         case AskHandler => 6
         case Parked => 7
         case Parking => 8
         case Launch => 9
         case Pausing => 10
         case Deciding => 11
         case Ended => 12
         case Cleaning => 13
         case Closing => 14
         case _ => 15)
    + if u.pc.Notifying? then 1 else 0
  }

  /** Before the session is up. */
  predicate Early(pc: PC) {
    pc.Launch? || pc.AskHandler? || pc.Parking? || pc.Parked? || pc.Connecting?
  }

  /** The next step towards serving; a fresh child gets group 1. */
  function Onward(u: Up, tools: seq<Tool>): Event {
    match u.pc
    case Launch => Begin
    case AskHandler => HandlerFound
    case Parking => Park
    case Parked => CredentialsArrived
    case Connecting(g) => if u.kind == Stdio && g == 0 then Spawn(1) else Connected
    case Listing => FirstList(tools)
    case Announcing => Announce
    case Settling => Settle(false)
    case Closing => Shutdown
    case Cleaning => CleanUp
    case Ended => Count(true)
    case Deciding => Decide
    case Pausing => TimerFired
    case _ => Notified
  }

  lemma EarlyOnwardStep(maxFailures: int, u: Up, tools: seq<Tool>) returns (u': Up)
    requires Early(u.pc)
    requires maxFailures >= 2 && Inv(maxFailures, u) && !u.cancelled && !Doomed(maxFailures, u) && !u.pc.Serving?
    ensures Next(maxFailures, u, Onward(u, tools)) == Some(u') && !u'.cancelled && !Doomed(maxFailures, u')
    ensures Distance(u') < Distance(u)
  {
    u' := Next(maxFailures, u, Onward(u, tools)).value;
  }

  lemma LateOnwardStep(maxFailures: int, u: Up, tools: seq<Tool>) returns (u': Up)
    requires !Early(u.pc) && !u.pc.Notifying?
    requires maxFailures >= 2 && Inv(maxFailures, u) && !u.cancelled && !Doomed(maxFailures, u) && !u.pc.Serving?
    ensures Next(maxFailures, u, Onward(u, tools)) == Some(u') && !u'.cancelled && !Doomed(maxFailures, u')
    ensures Distance(u') < Distance(u)
  {
    u' := Next(maxFailures, u, Onward(u, tools)).value;
  }

  lemma OnwardStep(maxFailures: int, u: Up, tools: seq<Tool>) returns (u': Up)
    requires maxFailures >= 2 && Inv(maxFailures, u) && !u.cancelled && !Doomed(maxFailures, u) && !u.pc.Serving?
    ensures Next(maxFailures, u, Onward(u, tools)) == Some(u') && !u'.cancelled && !Doomed(maxFailures, u')
    ensures Distance(u') < Distance(u)
  {
    if u.pc.Notifying? {
      u' := NotifiedStep(maxFailures, u);
    } else if Early(u.pc) {
      u' := EarlyOnwardStep(maxFailures, u, tools);
    } else {
      u' := LateOnwardStep(maxFailures, u, tools);
    }
  }

  /** As long as the loop has not been cancelled and its verdict is open, the upstream can
      still come to serve: through a login where it needs one, and through the
      clean-up and the pause after a failed run. */
  lemma {:induction false} CanServe(maxFailures: int, u: Up, tools: seq<Tool>) returns (es: seq<Event>, u': Up)
    requires maxFailures >= 2 && Reachable(maxFailures, u) && !u.cancelled && !Doomed(maxFailures, u)
    ensures Exec(maxFailures, u, es) == Some(u') && u'.pc.Serving? && u'.sh.state == Ready
    decreases Distance(u)
  {
    ReachableInv(maxFailures, u);
    if u.pc.Serving? {
      es, u' := [], u;
    } else {
      var next := OnwardStep(maxFailures, u, tools);
      ReachStep(maxFailures, u, Onward(u, tools), next);
      es, u' := CanServe(maxFailures, next, tools);
      ExecFirst(maxFailures, u, Onward(u, tools), next, es);
      es := [Onward(u, tools)] + es;
    }
  }

  // ------------------------------------------------------------------ to the end

  /** Steps left until the loop is done, at the most, once it is cancelled. */
  function ToEnd(u: Up): nat {
    2 * (match At(u.pc)
         case Left => 0
         case Leaving => 1
         case Pausing => 2
         case Deciding => 3
         case Ended => 4
         case Cleaning => 5
         case Closing => 6
         case Serving(_, _) => 7
         case Settling => 8
         case Announcing => 9
         case Listing => 10
         case Connecting(_) => 11
         case Parked => 12
         case Parking => 13
         case AskHandler => 14
         case Launch => 15
         case _ => 16)
    + if u.pc.Notifying? then 1 else 0
  }

  /** The next step towards the end, by the failing way out where there is one. */
  function Outward(u: Up): Event {
    match u.pc
    case Launch => Begin
    case AskHandler => HandlerError
    case Parking => Park
    case Parked => WaitFailed
    case Connecting(_) => ConnectFailed
    case Listing => FirstListFailed
    case Announcing => Announce
    case Settling => Settle(false)
    case Serving(_, _) => SeeCancel
    case Closing => Shutdown
    case Cleaning => CleanUp
    case Ended => StopSeen
    case Deciding => Decide
    case Pausing => SeeCancel
    case Leaving => Leave
    case _ => Notified
  }

  lemma EarlyOutwardStep(maxFailures: int, u: Up) returns (u': Up)
    requires Early(u.pc)
    requires Inv(maxFailures, u) && u.cancelled && u.pc != Left
    ensures Next(maxFailures, u, Outward(u)) == Some(u') && u'.cancelled && ToEnd(u') < ToEnd(u)
  {
    u' := Next(maxFailures, u, Outward(u)).value;
  }

  lemma LateOutwardStep(maxFailures: int, u: Up) returns (u': Up)
    requires !Early(u.pc) && !u.pc.Notifying?
    requires Inv(maxFailures, u) && u.cancelled && u.pc != Left
    ensures Next(maxFailures, u, Outward(u)) == Some(u') && u'.cancelled && ToEnd(u') < ToEnd(u)
  {
    u' := Next(maxFailures, u, Outward(u)).value;
  }

  lemma OutwardStep(maxFailures: int, u: Up) returns (u': Up)
    requires Inv(maxFailures, u) && u.cancelled && u.pc != Left
    ensures Next(maxFailures, u, Outward(u)) == Some(u') && u'.cancelled && ToEnd(u') < ToEnd(u)
  {
    if u.pc.Notifying? {
      u' := NotifiedStep(maxFailures, u);
    } else if Early(u.pc) {
      u' := EarlyOutwardStep(maxFailures, u);
    } else {
      u' := LateOutwardStep(maxFailures, u);
    }
  }

  lemma NotifiedStep(maxFailures: int, u: Up) returns (u': Up)
    requires Inv(maxFailures, u) && u.pc.Notifying?
    ensures Next(maxFailures, u, Notified) == Some(u') && u'.cancelled == u.cancelled && At(u'.pc) == At(u.pc)
    ensures ToEnd(u') < ToEnd(u) && Distance(u') < Distance(u) && u'.sh == u.sh
  {
    u' := Goto(u, u.pc.next);
  }

  /** A cancelled loop can be brought to its end from wherever it stands, and it then
      has signalled the start and closed `done`. */
  lemma {:induction false} CanEnd(maxFailures: int, u: Up) returns (es: seq<Event>, u': Up)
    requires Reachable(maxFailures, u) && u.cancelled
    ensures Exec(maxFailures, u, es) == Some(u') && u'.pc == Left && u'.fired == 1 && u'.doneClosed == 1 && u'.groups == {}
    ensures u'.sh.state == Stopped || u'.sh.state == Failed
    decreases ToEnd(u)
  {
    ReachableInv(maxFailures, u);
    if u.pc == Left {
      es, u' := [], u;
    } else {
      var next := OutwardStep(maxFailures, u);
      ReachStep(maxFailures, u, Outward(u), next);
      es, u' := CanEnd(maxFailures, next);
      ExecFirst(maxFailures, u, Outward(u), next, es);
      es := [Outward(u)] + es;
    }
  }

  // ------------------------------------------------------- what comes from events

  lemma {:induction false} CancelledIff(maxFailures: int, kind: Kind, es: seq<Event>)
    requires Exec(maxFailures, Init(kind), es).Some?
    ensures Exec(maxFailures, Init(kind), es).value.cancelled <==> Cancel in es
  {
    if es != [] {
      CancelledIff(maxFailures, kind, es[..|es| - 1]);
      CancelStep(maxFailures, Exec(maxFailures, Init(kind), es[..|es| - 1]).value, es[|es| - 1]);
      assert es == es[..|es| - 1] + [es[|es| - 1]];
    }
  }

  lemma CancelStep(maxFailures: int, u: Up, e: Event)
    requires Next(maxFailures, u, e).Some?
    ensures Next(maxFailures, u, e).value.cancelled <==> u.cancelled || e == Cancel
    ensures Next(maxFailures, u, Cancel).Some?
  {
  }

  /** Pings are given up exactly by an answer that they are not supported, and for the
      rest of the upstream's life, reconnects included. */
  lemma {:induction false} PingBrokenIff(maxFailures: int, kind: Kind, es: seq<Event>)
    requires Exec(maxFailures, Init(kind), es).Some?
    ensures Exec(maxFailures, Init(kind), es).value.sh.pingBroken <==> PingUnsupported in es
  {
    if es != [] {
      PingBrokenIff(maxFailures, kind, es[..|es| - 1]);
      BrokenStep(maxFailures, Exec(maxFailures, Init(kind), es[..|es| - 1]).value, es[|es| - 1]);
      assert es == es[..|es| - 1] + [es[|es| - 1]];
    }
  }

  /** From then on it is not pinged any more. */
  lemma {:induction false} NoPingOnceBroken(maxFailures: int, kind: Kind, es: seq<Event>)
    requires Exec(maxFailures, Init(kind), es).Some?
    ensures var u := Exec(maxFailures, Init(kind), es).value;
            At(u.pc).Serving? && At(u.pc).ticking ==> !u.sh.pingBroken
  {
    if es != [] {
      var u, e := Exec(maxFailures, Init(kind), es[..|es| - 1]).value, es[|es| - 1];
      NoPingOnceBroken(maxFailures, kind, es[..|es| - 1]);
      InvAlways(maxFailures, kind, es[..|es| - 1]);
      BrokenStep(maxFailures, u, e);
      TickStep(maxFailures, u, e);
    }
  }

  lemma BrokenStep(maxFailures: int, u: Up, e: Event)
    requires Next(maxFailures, u, e).Some?
    ensures Next(maxFailures, u, e).value.sh.pingBroken <==> u.sh.pingBroken || e == PingUnsupported
  {
  }

  /** A loop comes to tick at the start of its service, if pings work, and at an answer,
      if it ticked before. */
  lemma TickStep(maxFailures: int, u: Up, e: Event)
    requires StateFits(At(u.pc), u.sh.state) && Next(maxFailures, u, e).Some?
    ensures var u' := Next(maxFailures, u, e).value;
            At(u'.pc).Serving? && At(u'.pc).ticking ==>
              (At(u.pc).Serving? && At(u.pc).ticking && e != PingUnsupported) || (e.Settle? && !u.sh.pingBroken)
  {
    if PhaseOf(e).ListingPhase? || PhaseOf(e).PingPhase? {
      TickingStep(maxFailures, u, e);
    } else {
      NotTickingStep(maxFailures, u, e);
    }
  }

  lemma TickingStep(maxFailures: int, u: Up, e: Event)
    requires PhaseOf(e).ListingPhase? || PhaseOf(e).PingPhase?
    requires StateFits(At(u.pc), u.sh.state) && Next(maxFailures, u, e).Some?
    ensures var u' := Next(maxFailures, u, e).value;
            At(u'.pc).Serving? && At(u'.pc).ticking ==>
              (At(u.pc).Serving? && At(u.pc).ticking && e != PingUnsupported) || (e.Settle? && !u.sh.pingBroken)
  {
  }

  lemma NotTickingStep(maxFailures: int, u: Up, e: Event)
    requires !(PhaseOf(e).ListingPhase? || PhaseOf(e).PingPhase?)
    requires StateFits(At(u.pc), u.sh.state) && Next(maxFailures, u, e).Some?
    ensures var u' := Next(maxFailures, u, e).value;
            At(u'.pc).Serving? && At(u'.pc).ticking ==>
              (At(u.pc).Serving? && At(u.pc).ticking && e != PingUnsupported) || (e.Settle? && !u.sh.pingBroken)
  {
  }

  /** While an upstream serves, its child can exit; while it is pinged, a ping can be
      answered, fail, or turn out not to be supported unless one was answered before in
      this session. Nothing else ends or changes the service but a cancellation. */
  lemma ServiceSteps(maxFailures: int, u: Up)
    requires u.pc.Serving?
    ensures Next(maxFailures, u, ChildExited).Some?
    ensures Next(maxFailures, u, PingOk).Some? <==> u.pc.ticking
    ensures Next(maxFailures, u, PingFailed).Some? <==> u.pc.ticking
    ensures Next(maxFailures, u, PingUnsupported).Some? <==> u.pc.ticking && !u.pc.pinged
    ensures Next(maxFailures, u, SeeCancel).Some? <==> u.cancelled
    ensures Next(maxFailures, u, PingWhileCancelled) == if u.pc.ticking && u.cancelled then Some(u) else None
  {
  }

  lemma ServiceKept(maxFailures: int, u: Up, e: Event)
    requires u.pc.Serving? && Next(maxFailures, u, e).Some?
    ensures var u' := Next(maxFailures, u, e).value;
            && (u'.pc.Serving? <==> !e.ChildExited? && !e.PingFailed? && !e.SeeCancel?)
            && (u'.pc.Serving? ==> u'.groups == u.groups && u'.sh.session == u.sh.session && u'.sh.pid == u.sh.pid)
            && (e == PingOk ==> u'.pc == Serving(true, true))
  {
  }

  /** A list that is stored while the upstream is Ready owes one notification, and one that
      is stored at any other time owes none. */
  lemma StoresNotifyIff(maxFailures: int, u: Up, tools: seq<Tool>)
    ensures Next(maxFailures, u, HandlerStores(tools)) ==
            Some(u.(sh := u.sh.(tools := tools), owed := if u.sh.state == Ready then u.owed + 1 else u.owed))
    ensures Reachable(maxFailures, u) && u.pc == Listing ==>
              Next(maxFailures, u, FirstList(tools)) == Some(u.(sh := u.sh.(tools := tools), pc := Announcing))
  {
    if Reachable(maxFailures, u) {
      ReachableInv(maxFailures, u);
    }
  }

  /** Where the loop is asking for a token handler or waiting for a login. */
  predicate Asking(u: Up) {
    At(u.pc) == AskHandler || At(u.pc) == Parking || At(u.pc) == Parked || u.sh.state == NeedsLogin
  }

  lemma AskStep(maxFailures: int, u: Up, e: Event)
    requires StateFits(At(u.pc), u.sh.state) && Next(maxFailures, u, e).Some? && Asking(Next(maxFailures, u, e).value)
    ensures Asking(u) || (e == Begin && u.kind == RemoteOAuth)
  {
    if PhaseOf(e).EntryPhase? || PhaseOf(e).WaitingPhase? {
      AskingStep(maxFailures, u, e);
    } else {
      NotAskingStep(maxFailures, u, e);
    }
  }

  lemma AskingStep(maxFailures: int, u: Up, e: Event)
    requires PhaseOf(e).EntryPhase? || PhaseOf(e).WaitingPhase?
    requires StateFits(At(u.pc), u.sh.state) && Next(maxFailures, u, e).Some? && Asking(Next(maxFailures, u, e).value)
    ensures Asking(u) || (e == Begin && u.kind == RemoteOAuth)
  {
  }

  lemma NotAskingStep(maxFailures: int, u: Up, e: Event)
    requires !(PhaseOf(e).EntryPhase? || PhaseOf(e).WaitingPhase?)
    requires StateFits(At(u.pc), u.sh.state) && Next(maxFailures, u, e).Some? && Asking(Next(maxFailures, u, e).value)
    ensures Asking(u) || (e == Begin && u.kind == RemoteOAuth)
  {
    PlaceStep(maxFailures, u, e);
    NoLoginStep(maxFailures, u, e);
  }

  lemma PlaceStep(maxFailures: int, u: Up, e: Event)
    requires StateFits(At(u.pc), u.sh.state) && Next(maxFailures, u, e).Some?
    requires !(PhaseOf(e).EntryPhase? || PhaseOf(e).WaitingPhase?)
    ensures var at := At(Next(maxFailures, u, e).value.pc);
            at == AskHandler || at == Parking || at == Parked ==> at == At(u.pc)
  {
    if PhaseOf(e).ConnectPhase? || PhaseOf(e).ListingPhase? || PhaseOf(e).PingPhase? || PhaseOf(e).ExitPhase? {
      SessionPlaceStep(maxFailures, u, e);
    } else {
      OtherPlaceStep(maxFailures, u, e);
    }
  }

  lemma SessionPlaceStep(maxFailures: int, u: Up, e: Event)
    requires PhaseOf(e).ConnectPhase? || PhaseOf(e).ListingPhase? || PhaseOf(e).PingPhase? || PhaseOf(e).ExitPhase?
    requires StateFits(At(u.pc), u.sh.state) && Next(maxFailures, u, e).Some?
    requires !(PhaseOf(e).EntryPhase? || PhaseOf(e).WaitingPhase?)
    ensures var at := At(Next(maxFailures, u, e).value.pc);
            at == AskHandler || at == Parking || at == Parked ==> at == At(u.pc)
  {
  }

  lemma OtherPlaceStep(maxFailures: int, u: Up, e: Event)
    requires !(PhaseOf(e).ConnectPhase? || PhaseOf(e).ListingPhase? || PhaseOf(e).PingPhase? || PhaseOf(e).ExitPhase?)
    requires StateFits(At(u.pc), u.sh.state) && Next(maxFailures, u, e).Some?
    requires !(PhaseOf(e).EntryPhase? || PhaseOf(e).WaitingPhase?)
    ensures var at := At(Next(maxFailures, u, e).value.pc);
            at == AskHandler || at == Parking || at == Parked ==> at == At(u.pc)
  {
  }

  lemma NoLoginStep(maxFailures: int, u: Up, e: Event)
    requires Next(maxFailures, u, e).Some? && e != LoginRequired
    ensures Next(maxFailures, u, e).value.sh.state == NeedsLogin ==> u.sh.state == NeedsLogin
  {
    if !Writes(e) {
      OthersKeepState(maxFailures, u, e);
    }
  }

  lemma ConnectStep(maxFailures: int, u: Up, e: Event)
    requires StateFits(At(u.pc), u.sh.state) && Next(maxFailures, u, e).Some?
    requires u.kind == RemoteOAuth && At(Next(maxFailures, u, e).value.pc).Connecting?
    ensures At(u.pc).Connecting? || e == HandlerFound
  {
    if PhaseOf(e).EntryPhase? || PhaseOf(e).WaitingPhase? || PhaseOf(e).ConnectPhase? {
      ConnectingStep(maxFailures, u, e);
    } else {
      NotConnectingStep(maxFailures, u, e);
    }
  }

  lemma ConnectingStep(maxFailures: int, u: Up, e: Event)
    requires PhaseOf(e).EntryPhase? || PhaseOf(e).WaitingPhase? || PhaseOf(e).ConnectPhase?
    requires StateFits(At(u.pc), u.sh.state) && Next(maxFailures, u, e).Some?
    requires u.kind == RemoteOAuth && At(Next(maxFailures, u, e).value.pc).Connecting?
    ensures At(u.pc).Connecting? || e == HandlerFound
  {
  }

  lemma NotConnectingStep(maxFailures: int, u: Up, e: Event)
    requires !(PhaseOf(e).EntryPhase? || PhaseOf(e).WaitingPhase? || PhaseOf(e).ConnectPhase?)
    requires StateFits(At(u.pc), u.sh.state) && Next(maxFailures, u, e).Some?
    requires u.kind == RemoteOAuth && At(Next(maxFailures, u, e).value.pc).Connecting?
    ensures At(u.pc).Connecting? || e == HandlerFound
  {
  }

  lemma KindStays(maxFailures: int, u: Up, e: Event)
    requires Next(maxFailures, u, e).Some?
    ensures Next(maxFailures, u, e).value.kind == u.kind
  {
  }

  /** Only upstreams that log in ever ask for a token handler or wait for a login. */
  lemma {:induction false} LoginsOnlyWhereNeeded(maxFailures: int, kind: Kind, es: seq<Event>)
    requires Exec(maxFailures, Init(kind), es).Some?
    ensures var u := Exec(maxFailures, Init(kind), es).value;
            u.kind == kind && (Asking(u) ==> kind == RemoteOAuth)
  {
    if es != [] {
      var before := es[..|es| - 1];
      var u := Exec(maxFailures, Init(kind), before).value;
      LoginsOnlyWhereNeeded(maxFailures, kind, before);
      InvAlways(maxFailures, kind, before);
      KindStays(maxFailures, u, es[|es| - 1]);
      if Asking(Exec(maxFailures, Init(kind), es).value) {
        AskStep(maxFailures, u, es[|es| - 1]);
      }
    }
  }

  /** And these do not connect before they have been given a handler. */
  lemma {:induction false} HandlerComesFirst(maxFailures: int, es: seq<Event>)
    requires Exec(maxFailures, Init(RemoteOAuth), es).Some?
    ensures At(Exec(maxFailures, Init(RemoteOAuth), es).value.pc).Connecting? ==> HandlerFound in es
  {
    if es != [] {
      var before := es[..|es| - 1];
      HandlerComesFirst(maxFailures, before);
      InvAlways(maxFailures, RemoteOAuth, before);
      LoginsOnlyWhereNeeded(maxFailures, RemoteOAuth, before);
      if At(Exec(maxFailures, Init(RemoteOAuth), es).value.pc).Connecting? {
        ConnectStep(maxFailures, Exec(maxFailures, Init(RemoteOAuth), before).value, es[|es| - 1]);
      }
      assert es == before + [es[|es| - 1]];
    }
  }
}
