/** The login protocol towards upstreams that need OAuth: handlers, ready
    channels, login flows, re-authorizations, callbacks and waiters, in any
    interleaving. */
module OAuth {

  import opened Prelude

  /** One upstream. `ready` is the channel waiters are handed; `code` the login
      in progress, named by the number of the flow that owns it. `wellFormed`
      says whether a probe request can be built for its URL. */
  datatype Entry = Entry(
    handler: Option<nat>, ready: nat,
    code: Option<nat>, loginState: string, loginURL: string, wellFormed: bool)

  /** What the manager's mutex guards, with the set of ready channels closed so
      far, whether any was ever closed twice, and the supply of new ones. */
  datatype Mgr = Mgr(entries: map<string, Entry>, closed: set<nat>, closedTwice: bool, nextReady: nat)

  function Close(m: Mgr, c: nat): Mgr {
    m.(closed := m.closed + {c}, closedTwice := m.closedTwice || c in m.closed)
  }

  function Invalidated(m: Mgr, id: string): Mgr
    requires id in m.entries
  {
    var e := m.entries[id];
    if e.handler.None? then m
    else m.(entries := m.entries[id := e.(handler := None, ready := m.nextReady)], nextReady := m.nextReady + 1)
  }

  function LoginBegun(m: Mgr, id: string, flow: nat): Mgr
    requires id in m.entries
  {
    m.(entries := m.entries[id := m.entries[id].(code := Some(flow))])
  }

  function UrlPublished(m: Mgr, id: string, state: string, url: string): Mgr
    requires id in m.entries
  {
    m.(entries := m.entries[id := m.entries[id].(loginState := state, loginURL := url)])
  }

  function LoginDone(m: Mgr, id: string, h: nat): Mgr
    requires id in m.entries
  {
    var e := m.entries[id];
    var m' := m.(entries := m.entries[id := e.(handler := Some(h))]);
    if e.handler.None? then Close(m', e.ready) else m'
  }

  function Cleared(m: Mgr, id: string): Mgr
    requires id in m.entries
  {
    m.(entries := m.entries[id := m.entries[id].(code := None, loginState := "", loginURL := "")])
  }

  /** An entry a callback for `state` may be matched with. */
  predicate Matches(m: Mgr, id: string, state: string) {
    id in m.entries && m.entries[id].code.Some? && state != "" && m.entries[id].loginState == state
  }

  /** What a fresh manager looks like: an entry has its handler and a closed
      ready channel where credentials were stored, and neither elsewhere. */
  ghost predicate Consistent(m: Mgr) {
    && (forall id :: id in m.entries ==>
          && (m.entries[id].handler.Some? <==> m.entries[id].ready in m.closed)
          && m.entries[id].ready < m.nextReady)
    && (forall a, b :: a in m.entries && b in m.entries && a != b ==> m.entries[a].ready != m.entries[b].ready)
    && (forall c :: c in m.closed ==> c < m.nextReady)
    && !m.closedTwice
  }

  predicate NoLogins(m: Mgr) {
    forall id :: id in m.entries ==>
      m.entries[id].code.None? && m.entries[id].loginState == "" && m.entries[id].loginURL == ""
  }

  class Manager {
    var entries: map<string, Entry>
    var closed: set<nat>
    var closedTwice: bool
    var nextReady: nat

    ghost function Value(): Mgr
      reads this
    {
      Mgr(entries, closed, closedTwice, nextReady)
    }

    /** Builds one entry per upstream ID, that of its last occurrence; `stored` maps those with stored
        credentials to their handler, `malformed` are those without a usable URL. */
    constructor (upstreams: seq<string>, stored: map<string, nat>, malformed: set<string>)
      ensures Consistent(Value()) && NoLogins(Value())
      ensures forall id :: id in entries <==> id in upstreams
      ensures forall id :: id in entries ==>
                && entries[id].handler == (if id in stored then Some(stored[id]) else None)
                && entries[id].wellFormed == (id !in malformed)
    {
      entries, closed, closedTwice, nextReady := map[], {}, false, 0;
      new;
      for i := 0 to |upstreams|
        invariant Consistent(Value()) && NoLogins(Value())
        invariant forall id :: id in entries <==> id in upstreams[..i]
        invariant forall id :: id in entries ==>
                    && entries[id].handler == (if id in stored then Some(stored[id]) else None)
                    && entries[id].wellFormed == (id !in malformed)
      {
        var id := upstreams[i];
        Add(id, if id in stored then Some(stored[id]) else None, id !in malformed);
      }
      assert upstreams[..|upstreams|] == upstreams;
    }

    /** Gives an upstream its entry, with the ready channel closed where there is a
        handler; an entry under the same ID is replaced. */
    method Add(id: string, handler: Option<nat>, wellFormed: bool)
      requires Consistent(Value()) && NoLogins(Value())
      modifies this
      ensures Consistent(Value()) && NoLogins(Value())
      ensures entries == old(entries)[id := Entry(handler, old(nextReady), None, "", "", wellFormed)]
    {
      var e := Entry(None, nextReady, None, "", "", wellFormed);
      if handler.Some? {
        e := e.(handler := handler);
        closed, closedTwice := closed + {e.ready}, closedTwice || e.ready in closed;
      }
      entries := entries[id := e];
      nextReady := nextReady + 1;
    }

    /** None stands for the login-required error. */
    method Handler(id: string) returns (known: bool, h: Option<nat>)
      ensures known <==> id in entries
      ensures h == if id in entries then entries[id].handler else None
    {
      if id !in entries {
        return false, None;
      }
      return true, entries[id].handler;
    }

    method Invalidate(id: string)
      requires id in entries
      modifies this`entries, this`nextReady
      ensures Value() == Invalidated(old(Value()), id)
      ensures entries[id].handler == None
      ensures old(entries[id].handler) == None ==> entries == old(entries) && nextReady == old(nextReady)
      ensures old(entries[id].handler) != None ==>
                && entries == old(entries)[id := old(entries[id]).(handler := None, ready := old(nextReady))]
                && nextReady == old(nextReady) + 1
    {
      if entries[id].handler.None? {
        return;
      }
      entries := entries[id := entries[id].(handler := None)];
      entries := entries[id := entries[id].(ready := nextReady)];
      nextReady := nextReady + 1;
    }

    /** The first locked block of StartLogin. */
    method BeginLogin(id: string, flow: nat) returns (ok: bool)
      modifies this`entries
      ensures ok <==> id in old(entries) && old(entries)[id].code.None?
      ensures Value() == if ok then LoginBegun(old(Value()), id, flow) else old(Value())
      ensures entries == if ok then old(entries)[id := old(entries[id]).(code := Some(flow))] else old(entries)
    {
      if id in entries && entries[id].code.Some? {
        return false;
      }
      if id !in entries {
        return false;
      }
      entries := entries[id := entries[id].(code := Some(flow))];
      return true;
    }

    method Publish(id: string, state: string, url: string)
      requires id in entries
      modifies this`entries
      ensures Value() == UrlPublished(old(Value()), id, state, url)
      ensures entries == old(entries)[id := old(entries[id]).(loginState := state, loginURL := url)]
    {
      entries := entries[id := entries[id].(loginState := state)];
      entries := entries[id := entries[id].(loginURL := url)];
    }

    /** The URL of a login in progress, to be shown to the user. */
    method PendingLogin(id: string) returns (url: string)
      ensures url == if id in entries && entries[id].code.Some? then entries[id].loginURL else ""
    {
      if id in entries && entries[id].code.Some? {
        return entries[id].loginURL;
      }
      return "";
    }

    /** Installs the handler of a finished login, in place of any other. */
    method Complete(id: string, h: nat) returns (replaced: bool)
      requires id in entries
      modifies this`entries, this`closed, this`closedTwice
      ensures replaced <==> old(entries)[id].handler.Some?
      ensures Value() == LoginDone(old(Value()), id, h)
      ensures entries == old(entries)[id := old(entries[id]).(handler := Some(h))]
      ensures closed == (if replaced then old(closed) else old(closed) + {old(entries[id].ready)})
    {
      replaced := entries[id].handler.Some?;
      entries := entries[id := entries[id].(handler := Some(h))];
      if !replaced {
        closed, closedTwice := closed + {entries[id].ready}, closedTwice || entries[id].ready in closed;
      }
    }

    method ClearLogin(id: string)
      requires id in entries
      modifies this`entries
      ensures Value() == Cleared(old(Value()), id)
      ensures entries == old(entries)[id := old(entries[id]).(code := None, loginState := "", loginURL := "")]
    {
      entries := entries[id := entries[id].(code := None, loginState := "", loginURL := "")];
    }

    /** The lookup of a callback: some matching entry, if there is one. */
    method Lookup(state: string) returns (target: Option<string>)
      ensures target.Some? ==> Matches(Value(), target.value, state)
      ensures target.None? ==> forall id :: !Matches(Value(), id, state)
    {
      target := None;
      var rest := entries.Keys;
      while rest != {}
        invariant rest <= entries.Keys
        invariant target.None? ==> forall id :: id in entries && id !in rest ==> !Matches(Value(), id, state)
        invariant target.Some? ==> Matches(Value(), target.value, state)
        decreases rest
      {
        var id :| id in rest;
        rest := rest - {id};
        if entries[id].code.Some? && state != "" && entries[id].loginState == state {
          return Some(id);
        }
      }
    }
  }

  /** Where a login flow stands; flow `f` owns code channel `f`. */
  datatype FlowPC =
    | Probing            // the caller of StartLogin probes the upstream
    | Authorizing        // the background authorization has not asked for a code yet
    | Waiting            // the authorization URL is out
    | Exchanging         // a code has been received
    | Clearing           // the deferred clearLogin is due
    | Finished           // nothing left to do

  /** `expected` is the state the flow put into its authorization URL. */
  datatype Flow = Flow(id: string, pc: FlowPC, expected: string)

  /** Someone blocked on the ready channel they were handed. */
  datatype Waiter = Waiter(id: string, chan: nat)

  /** A callback that has found its entry but not sent its code; `seen` is the
      login it found there. */
  datatype Callback = Callback(id: string, state: string, seen: nat)

  /** A code in a flow's channel, with the state it came with and the login its
      callback had found. */
  datatype Letter = Letter(state: string, seen: nat)

  /** Who drew a state and showed it as an entry's pending one: login flow `f`, or
      the handler that flow `f` installed, when its server demands a new
      authorization. */
  datatype Publisher = ByFlow(f: nat) | ByHandler(f: nat)

  /** A re-authorization by the handler of flow `f`, from showing its state until
      it gives up or has a code. It waits on whatever channel the entry has when it
      starts to listen, which may be none. */
  datatype Reauth = Reauth(f: nat, state: string, at: Hearing)

  datatype Hearing = Deaf | Listening(chan: Option<nat>)

  /** `published` says of every state ever drawn who drew it, `installed` which
      flows have installed their handler. */
  datatype Sys = Sys(
    m: Mgr, flows: seq<Flow>, waiters: seq<Waiter>, callbacks: seq<Callback>,
    letters: map<nat, Letter>, published: map<string, Publisher>, installed: set<nat>, reauths: seq<Reauth>)

  datatype Event =
    | Reject(id: string)                       // credentials turn out dead
    | StartLogin(id: string)
    | ProbeMalformed(f: nat) | ProbeFailed(f: nat) | ProbeOk(f: nat)
    | Publish(f: nat, state: string, url: string)
    | GiveUp(f: nat)                           // authorization fails or times out
    | ReceiveCode(f: nat)
    | Complete(f: nat, handler: nat)
    | Clear(f: nat)
    | Reauthorize(f: nat, state: string, url: string)  // by a handler a login installed
    | Listen(r: nat) | Take(r: nat) | Abandon(r: nat)
    | Lookup(state: string, id: string)
    | Send(k: nat)
    | Wait(id: string)
    | Wake(k: nat)

  function SetPC(s: Sys, f: nat, pc: FlowPC): Sys
    requires f < |s.flows|
  {
    s.(flows := s.flows[f := s.flows[f].(pc := pc)])
  }

  predicate FlowAt(s: Sys, f: nat, pc: FlowPC) {
    f < |s.flows| && s.flows[f].pc == pc && s.flows[f].id in s.m.entries
  }

  function Next(s: Sys, e: Event): Option<Sys> {
    match e
    case Reject(id) => if id in s.m.entries then Some(s.(m := Invalidated(s.m, id))) else None
    case StartLogin(id) =>
      if id !in s.m.entries || s.m.entries[id].code.Some? then Some(s)  // refused
      else Some(s.(m := LoginBegun(s.m, id, |s.flows|), flows := s.flows + [Flow(id, Probing, "")]))
    case ProbeMalformed(f) =>
      if FlowAt(s, f, Probing) && !s.m.entries[s.flows[f].id].wellFormed then Some(SetPC(s, f, Finished)) else None
    case ProbeFailed(f) =>
      if FlowAt(s, f, Probing) && s.m.entries[s.flows[f].id].wellFormed
      then Some(SetPC(s, f, Finished).(m := Cleared(s.m, s.flows[f].id))) else None
    case ProbeOk(f) =>
      if FlowAt(s, f, Probing) && s.m.entries[s.flows[f].id].wellFormed then Some(SetPC(s, f, Authorizing)) else None
    case Publish(f, state, url) =>
      // states are random: none is empty and none is ever drawn twice
      if FlowAt(s, f, Authorizing) && state != "" && state !in s.published
      then Some(s.(flows := s.flows[f := Flow(s.flows[f].id, Waiting, state)],
                   m := UrlPublished(s.m, s.flows[f].id, state, url), published := s.published[state := ByFlow(f)]))
      else None
    case GiveUp(f) =>
      if FlowAt(s, f, Authorizing) || FlowAt(s, f, Waiting) || FlowAt(s, f, Exchanging)
      then Some(SetPC(s, f, Clearing)) else None
    case ReceiveCode(f) =>
      if FlowAt(s, f, Waiting) && f in s.letters
      then Some(SetPC(s, f, Exchanging).(letters := s.letters - {f})) else None
    case Complete(f, h) =>
      if FlowAt(s, f, Exchanging)
      then Some(SetPC(s, f, Clearing).(m := LoginDone(s.m, s.flows[f].id, h), installed := s.installed + {f})) else None
    case Clear(f) =>
      if FlowAt(s, f, Clearing) then Some(SetPC(s, f, Finished).(m := Cleared(s.m, s.flows[f].id))) else None
    case Reauthorize(f, state, url) =>
      // the fetcher of the login, still in the handler: it shows its state without claiming the entry
      if f in s.installed && f < |s.flows| && s.flows[f].id in s.m.entries && state != "" && state !in s.published
      then Some(s.(m := UrlPublished(s.m, s.flows[f].id, state, url), published := s.published[state := ByHandler(f)],
                   reauths := s.reauths + [Reauth(f, state, Deaf)]))
      else None
    case Listen(r) =>
      if r >= |s.reauths| || s.reauths[r].at != Deaf || s.reauths[r].f >= |s.flows|
         || s.flows[s.reauths[r].f].id !in s.m.entries then None
      else
        var chan := s.m.entries[s.flows[s.reauths[r].f].id].code;
        Some(s.(reauths := s.reauths[r := s.reauths[r].(at := Listening(chan))]))
    case Take(r) =>
      if r < |s.reauths| && s.reauths[r].at.Listening? && s.reauths[r].at.chan.Some? && s.reauths[r].at.chan.value in s.letters
      then Some(s.(letters := s.letters - {s.reauths[r].at.chan.value}, reauths := s.reauths[..r] + s.reauths[r + 1..]))
      else None
    case Abandon(r) =>
      if r < |s.reauths| then Some(s.(reauths := s.reauths[..r] + s.reauths[r + 1..])) else None
    case Lookup(state, id) =>
      if Matches(s.m, id, state)
      then Some(s.(callbacks := s.callbacks + [Callback(id, state, s.m.entries[id].code.value)])) else None
    case Send(k) =>
      if k >= |s.callbacks| || s.callbacks[k].id !in s.m.entries then None
      else
        var c := s.callbacks[k];
        var s' := s.(callbacks := s.callbacks[..k] + s.callbacks[k + 1..]);
        var code := s.m.entries[c.id].code;
        // a nil channel and a full buffer both take the default branch
        if code.None? || code.value in s.letters then Some(s')
        else Some(s'.(letters := s.letters[code.value := Letter(c.state, c.seen)]))
    case Wait(id) =>
      if id in s.m.entries then Some(s.(waiters := s.waiters + [Waiter(id, s.m.entries[id].ready)])) else None
    case Wake(k) =>
      if k < |s.waiters| && s.waiters[k].chan in s.m.closed
      then Some(s.(waiters := s.waiters[..k] + s.waiters[k + 1..])) else None
  }

  function Exec(s: Sys, es: seq<Event>): Option<Sys> {
    if es == [] then Some(s)
    else match Exec(s, es[..|es| - 1])
      case None => None
      case Some(t) => Next(t, es[|es| - 1])
  }

  ghost predicate IsInit(s: Sys) {
    && Consistent(s.m) && NoLogins(s.m)
    && s.flows == [] && s.waiters == [] && s.callbacks == [] && s.letters == map[]
    && s.published == map[] && s.installed == {} && s.reauths == []
  }

  predicate Active(f: Flow) { f.pc != Finished }

  /** Every waiter waits on the current ready channel or on a closed one. */
  ghost predicate WaitersFit(s: Sys) {
    forall k :: 0 <= k < |s.waiters| ==> ChannelFits(s.m, s.waiters[k].id, s.waiters[k].chan)
  }

  /** Flow `i` fits its entry: while active it is the login the entry names. */
  ghost predicate FlowFits(s: Sys, i: nat)
    requires i < |s.flows|
  {
    var f := s.flows[i];
    && f.id in s.m.entries
    && (Active(f) ==> s.m.entries[f.id].code == Some(i))
    && (f.pc.Probing? || f.pc.Authorizing? ==> f.expected == "")
    && (f.pc.Waiting? || f.pc.Exchanging? ==> f.expected != "")
    && (Active(f) && f.pc != Probing ==> s.m.entries[f.id].wellFormed)
    && (f.expected != "" ==>
          f.expected in s.published && s.published[f.expected] == ByFlow(i) && s.m.entries[f.id].wellFormed)
    && (i in s.installed ==> f.expected != "")
  }

  /** A login an entry names is a flow of that entry, and an active one where a
      probe can be built at all. */
  ghost predicate OwnerFits(s: Sys, id: string)
    requires id in s.m.entries
  {
    var e := s.m.entries[id];
    e.code.Some? ==>
      e.code.value < |s.flows| && s.flows[e.code.value].id == id && (e.wellFormed ==> Active(s.flows[e.code.value]))
  }

  /** A state was drawn by a flow, which keeps it, or by the handler of one. */
  predicate StateFits(s: Sys, state: string) {
    && state in s.published && state != "" && s.published[state].f < |s.flows|
    && (s.published[state].ByFlow? ==> s.flows[s.published[state].f].expected == state)
    && (s.published[state].ByHandler? ==> s.published[state].f in s.installed)
  }

  /** The upstream a state was drawn for. */
  function UpstreamOf(s: Sys, state: string): string
    requires StateFits(s, state)
  {
    s.flows[s.published[state].f].id
  }

  /** A pending state belongs to its entry, and to the login in progress where a
      flow drew it. */
  predicate PendingFits(s: Sys, id: string)
    requires id in s.m.entries
  {
    var e := s.m.entries[id];
    e.loginState != "" ==>
      && StateFits(s, e.loginState) && UpstreamOf(s, e.loginState) == id
      && (s.published[e.loginState].ByFlow? ==> e.code == Some(s.published[e.loginState].f))
  }

  ghost predicate LoginsFit(s: Sys) {
    && (forall i :: 0 <= i < |s.flows| ==> FlowFits(s, i))
    && (forall id :: id in s.m.entries ==> OwnerFits(s, id))
    && (forall state :: state in s.published ==> StateFits(s, state))
    && (forall id :: id in s.m.entries ==> PendingFits(s, id))
    && (forall f :: f in s.installed ==> f < |s.flows|)
  }

  /** A callback's state was drawn for its entry; where a flow drew it, that flow
      is the login the callback found. */
  predicate CallbackFits(s: Sys, c: Callback) {
    && c.id in s.m.entries && c.seen < |s.flows| && s.flows[c.seen].id == c.id
    && StateFits(s, c.state) && UpstreamOf(s, c.state) == c.id
    && (s.published[c.state].ByFlow? ==> s.published[c.state].f == c.seen)
  }

  /** A code delivered to flow `ch` came from a callback for the same entry. */
  predicate LetterFits(s: Sys, ch: nat) {
    ch in s.letters && ch < |s.flows| && CallbackFits(s, Callback(s.flows[ch].id, s.letters[ch].state, s.letters[ch].seen))
  }

  /** A re-authorization waits, if on any channel, on one of its own upstream. */
  predicate ReauthFits(s: Sys, r: Reauth) {
    && StateFits(s, r.state) && s.published[r.state] == ByHandler(r.f)
    && (r.at.Listening? && r.at.chan.Some? ==> r.at.chan.value < |s.flows| && s.flows[r.at.chan.value].id == UpstreamOf(s, r.state))
  }

  ghost predicate DeliveriesFit(s: Sys) {
    && (forall k :: 0 <= k < |s.callbacks| ==> CallbackFits(s, s.callbacks[k]))
    && (forall ch :: ch in s.letters ==> LetterFits(s, ch))
    && (forall r :: 0 <= r < |s.reauths| ==> ReauthFits(s, s.reauths[r]))
  }

  lemma ConsistentStep(s: Sys, e: Event, s': Sys)
    requires Consistent(s.m) && Next(s, e) == Some(s')
    ensures Consistent(s'.m)
  {
    if s'.m != s.m {
      ManagerCarries(s, e, s');
    }
  }

  /** A channel handed out for an entry is its current one or closed. */
  predicate ChannelFits(m: Mgr, id: string, chan: nat) {
    id in m.entries && chan < m.nextReady && (chan in m.closed || chan == m.entries[id].ready)
  }

  /** A change of the manager keeps it consistent and every channel handed out fit. */
  ghost predicate Carries(m: Mgr, m': Mgr) {
    Consistent(m') && forall id, chan :: ChannelFits(m, id, chan) ==> ChannelFits(m', id, chan)
  }

  lemma InvalidatedFits(m: Mgr, id: string)
    requires Consistent(m) && id in m.entries
    ensures Carries(m, Invalidated(m, id))
  {
  }

  lemma LoginBegunFits(m: Mgr, id: string, flow: nat)
    requires Consistent(m) && id in m.entries
    ensures Carries(m, LoginBegun(m, id, flow))
  {
  }

  lemma UrlPublishedFits(m: Mgr, id: string, state: string, url: string)
    requires Consistent(m) && id in m.entries
    ensures Carries(m, UrlPublished(m, id, state, url))
  {
  }

  lemma LoginDoneFits(m: Mgr, id: string, h: nat)
    requires Consistent(m) && id in m.entries
    ensures Carries(m, LoginDone(m, id, h))
  {
  }

  lemma ClearedFits(m: Mgr, id: string)
    requires Consistent(m) && id in m.entries
    ensures Carries(m, Cleared(m, id))
  {
  }

  lemma WaitersStep(s: Sys, e: Event, s': Sys)
    requires Consistent(s.m) && WaitersFit(s) && Next(s, e) == Some(s')
    ensures WaitersFit(s')
  {
    if s'.m != s.m {
      ManagerCarries(s, e, s');
    }
  }

  lemma ManagerCarries(s: Sys, e: Event, s': Sys)
    requires Consistent(s.m) && Next(s, e) == Some(s') && s'.m != s.m
    ensures Carries(s.m, s'.m) && s'.waiters == s.waiters
  {
    match e
    case Reject(id) => InvalidatedFits(s.m, id);
    case StartLogin(id) => LoginBegunFits(s.m, id, |s.flows|);
    case Publish(f, state, url) => UrlPublishedFits(s.m, s.flows[f].id, state, url);
    case Reauthorize(f, state, url) => UrlPublishedFits(s.m, s.flows[f].id, state, url);
    case Complete(f, h) => LoginDoneFits(s.m, s.flows[f].id, h);
    case ProbeFailed(f) => ClearedFits(s.m, s.flows[f].id);
    case Clear(f) => ClearedFits(s.m, s.flows[f].id);
    case _ =>
  }

  /** The event is a step of flow `e.f`. */
  predicate OfFlow(e: Event) {
    || e.ProbeMalformed? || e.ProbeFailed? || e.ProbeOk? || e.Publish?
    || e.GiveUp? || e.ReceiveCode? || e.Complete? || e.Clear?
  }

  lemma StartFlowStep(s: Sys, e: Event, s': Sys, i: nat)
    requires LoginsFit(s) && Next(s, e) == Some(s') && i < |s'.flows|
    requires e.ProbeMalformed? || e.ProbeFailed? || e.ProbeOk? || e.Publish?
    ensures FlowFits(s', i)
  {
    assert FlowFits(s, i) && FlowFits(s, e.f);
  }

  lemma LateFlowStep(s: Sys, e: Event, s': Sys, i: nat)
    requires LoginsFit(s) && Next(s, e) == Some(s') && i < |s'.flows|
    requires e.GiveUp? || e.ReceiveCode?
    ensures FlowFits(s', i)
  {
    assert FlowFits(s, i) && FlowFits(s, e.f);
  }

  lemma CompleteFlowStep(s: Sys, e: Event, s': Sys, i: nat)
    requires LoginsFit(s) && Next(s, e) == Some(s') && i < |s'.flows| && e.Complete?
    ensures FlowFits(s', i)
  {
    assert FlowFits(s, i) && FlowFits(s, e.f);
  }

  lemma ClearFlowStep(s: Sys, e: Event, s': Sys, i: nat)
    requires LoginsFit(s) && Next(s, e) == Some(s') && i < |s'.flows| && e.Clear?
    ensures FlowFits(s', i)
  {
    assert FlowFits(s, i) && FlowFits(s, e.f);
  }

  lemma OtherFlowStep(s: Sys, e: Event, s': Sys, i: nat)
    requires LoginsFit(s) && Next(s, e) == Some(s') && i < |s'.flows| && !OfFlow(e)
    ensures FlowFits(s', i)
  {
    if i < |s.flows| {
      assert FlowFits(s, i);
    }
  }

  lemma OwnerStep(s: Sys, e: Event, s': Sys, id: string)
    requires LoginsFit(s) && Next(s, e) == Some(s') && id in s'.m.entries
    requires e.ProbeMalformed? || e.ProbeFailed? || e.ProbeOk? || e.Publish?
    ensures OwnerFits(s', id)
  {
    assert OwnerFits(s, id) && FlowFits(s, e.f);
  }

  lemma EndOwnerStep(s: Sys, e: Event, s': Sys, id: string)
    requires LoginsFit(s) && Next(s, e) == Some(s') && id in s'.m.entries
    requires e.GiveUp? || e.ReceiveCode? || e.Complete? || e.Clear?
    ensures OwnerFits(s', id)
  {
    assert OwnerFits(s, id) && FlowFits(s, e.f);
  }

  lemma OtherOwnerStep(s: Sys, e: Event, s': Sys, id: string)
    requires LoginsFit(s) && Next(s, e) == Some(s') && id in s'.m.entries && !OfFlow(e)
    ensures OwnerFits(s', id)
  {
    assert OwnerFits(s, id);
  }

  /** What was drawn stays drawn, and what is new was drawn now. */
  lemma StatesStep(s: Sys, e: Event, s': Sys, state: string)
    requires LoginsFit(s) && Next(s, e) == Some(s') && state in s'.published
    ensures StateFits(s', state)
    ensures state in s.published ==> s'.published[state] == s.published[state] && UpstreamOf(s', state) == UpstreamOf(s, state)
  {
    if state in s.published {
      assert StateFits(s, state);
      GrowStep(s, e, s');
      StateStays(s, s', state);
    }
  }

  /** A flow keeps its upstream, and its state once it has one. */
  predicate FlowKept(f: Flow, f': Flow) {
    f'.id == f.id && (f.expected != "" ==> f'.expected == f.expected)
  }

  /** What never goes away. */
  ghost predicate Grown(s: Sys, s': Sys) {
    && (forall id :: id in s.m.entries ==> id in s'.m.entries)
    && |s.flows| <= |s'.flows|
    && (forall f :: 0 <= f < |s.flows| ==> FlowKept(s.flows[f], s'.flows[f]))
    && (forall state :: state in s.published ==> state in s'.published && s'.published[state] == s.published[state])
    && (forall f :: f in s.installed ==> f in s'.installed)
  }

  lemma GrowStep(s: Sys, e: Event, s': Sys)
    requires LoginsFit(s) && Next(s, e) == Some(s')
    ensures Grown(s, s')
  {
    forall f | 0 <= f < |s.flows| ensures f < |s'.flows| && FlowKept(s.flows[f], s'.flows[f]) {
      if e.Publish? {
        PublishKeeps(s, e, s', f);
      } else {
        KeptStep(s, e, s', f);
      }
    }
    RecordsGrow(s, e, s');
  }

  lemma KeptStep(s: Sys, e: Event, s': Sys, f: nat)
    requires Next(s, e) == Some(s') && f < |s.flows| && !e.Publish?
    ensures f < |s'.flows| && FlowKept(s.flows[f], s'.flows[f])
  {
  }

  lemma PublishKeeps(s: Sys, e: Event, s': Sys, f: nat)
    requires LoginsFit(s) && Next(s, e) == Some(s') && f < |s.flows| && e.Publish?
    ensures f < |s'.flows| && FlowKept(s.flows[f], s'.flows[f])
  {
    assert FlowFits(s, f);
  }

  lemma RecordsGrow(s: Sys, e: Event, s': Sys)
    requires Next(s, e) == Some(s')
    ensures forall id :: id in s.m.entries ==> id in s'.m.entries
    ensures |s.flows| <= |s'.flows|
    ensures forall state :: state in s.published ==> state in s'.published && s'.published[state] == s.published[state]
    ensures forall f :: f in s.installed ==> f in s'.installed
  {
  }

  lemma StateStays(s: Sys, s': Sys, state: string)
    requires Grown(s, s') && StateFits(s, state)
    ensures StateFits(s', state) && s'.published[state] == s.published[state] && UpstreamOf(s', state) == UpstreamOf(s, state)
  {
    assert FlowKept(s.flows[s.published[state].f], s'.flows[s.published[state].f]);
  }

  lemma InstalledStep(s: Sys, e: Event, s': Sys, f: nat)
    requires LoginsFit(s) && Next(s, e) == Some(s') && f in s'.installed
    ensures f < |s'.flows|
  {
  }

  /** The pending state of an entry after a step that publishes or clears none there. */
  lemma PendingStep(s: Sys, e: Event, s': Sys, id: string)
    requires LoginsFit(s) && Next(s, e) == Some(s') && id in s'.m.entries
    ensures PendingFits(s', id)
  {
    assert PendingFits(s, id) && OwnerFits(s, id);
    var state := s'.m.entries[id].loginState;
    if state != "" {
      if s.m.entries[id].loginState == state {
        GrowStep(s, e, s');
        StateStays(s, s', state);
        ClaimStays(s, e, s', id);
      } else {
        NewState(s, e, s', id);
        StatesStep(s, e, s', state);
      }
    }
  }

  /** A login goes on as long as the state it shows stands. */
  lemma ClaimStays(s: Sys, e: Event, s': Sys, id: string)
    requires LoginsFit(s) && Next(s, e) == Some(s') && id in s.m.entries && id in s'.m.entries
    requires s.m.entries[id].loginState != "" && s'.m.entries[id].loginState == s.m.entries[id].loginState
    ensures s.m.entries[id].code.Some? ==> s'.m.entries[id].code == s.m.entries[id].code
  {
    if e.ProbeFailed? || e.Clear? {
      assert FlowFits(s, e.f);
    } else {
      CodeMoves(s, e, s', id);
    }
  }

  /** A new pending state was drawn by the step itself, for this entry. */
  lemma NewState(s: Sys, e: Event, s': Sys, id: string)
    requires LoginsFit(s) && Next(s, e) == Some(s') && id in s.m.entries && id in s'.m.entries
    requires var state := s'.m.entries[id].loginState; state != "" && state != s.m.entries[id].loginState
    ensures var state := s'.m.entries[id].loginState;
            && state in s'.published && s'.published[state].f < |s'.flows| && s'.flows[s'.published[state].f].id == id
            && (s'.published[state].ByFlow? ==> s'.m.entries[id].code == Some(s'.published[state].f))
  {
    if e.Publish? {
      NewFlowState(s, e, s', id);
    } else {
      NewHandlerState(s, e, s', id);
    }
  }

  lemma NewFlowState(s: Sys, e: Event, s': Sys, id: string)
    requires LoginsFit(s) && Next(s, e) == Some(s') && e.Publish? && id in s.m.entries && id in s'.m.entries
    requires s'.m.entries[id].loginState != s.m.entries[id].loginState
    ensures var state := s'.m.entries[id].loginState;
            && state in s'.published && s'.published[state] == ByFlow(e.f) && e.f < |s'.flows| && s'.flows[e.f].id == id
            && s'.m.entries[id].code == Some(e.f)
  {
    assert FlowFits(s, e.f);
  }

  lemma NewHandlerState(s: Sys, e: Event, s': Sys, id: string)
    requires Next(s, e) == Some(s') && !e.Publish? && id in s.m.entries && id in s'.m.entries
    requires var state := s'.m.entries[id].loginState; state != "" && state != s.m.entries[id].loginState
    ensures e.Reauthorize?
    ensures var state := s'.m.entries[id].loginState;
            state in s'.published && s'.published[state] == ByHandler(e.f) && e.f < |s'.flows| && s'.flows[e.f].id == id
  {
  }

  lemma LoginsStep(s: Sys, e: Event, s': Sys)
    requires LoginsFit(s) && Next(s, e) == Some(s')
    ensures LoginsFit(s')
  {
    forall i | 0 <= i < |s'.flows| ensures FlowFits(s', i) {
      if e.Clear? {
        ClearFlowStep(s, e, s', i);
      } else if e.Complete? {
        CompleteFlowStep(s, e, s', i);
      } else if e.GiveUp? || e.ReceiveCode? {
        LateFlowStep(s, e, s', i);
      } else if OfFlow(e) {
        StartFlowStep(s, e, s', i);
      } else {
        OtherFlowStep(s, e, s', i);
      }
    }
    forall id | id in s'.m.entries ensures OwnerFits(s', id) {
      if e.GiveUp? || e.ReceiveCode? || e.Complete? || e.Clear? {
        EndOwnerStep(s, e, s', id);
      } else if OfFlow(e) {
        OwnerStep(s, e, s', id);
      } else {
        OtherOwnerStep(s, e, s', id);
      }
    }
    forall state | state in s'.published ensures StateFits(s', state) {
      StatesStep(s, e, s', state);
    }
    forall id | id in s'.m.entries ensures PendingFits(s', id) {
      PendingStep(s, e, s', id);
    }
    forall f | f in s'.installed ensures f < |s'.flows| {
      InstalledStep(s, e, s', f);
    }
  }

  /** A callback in flight keeps fitting. */
  lemma CallbackStays(s: Sys, s': Sys, c: Callback)
    requires Grown(s, s') && CallbackFits(s, c)
    ensures CallbackFits(s', c)
  {
    StateStays(s, s', c.state);
    assert FlowKept(s.flows[c.seen], s'.flows[c.seen]);
  }

  lemma LetterStays(s: Sys, s': Sys, ch: nat)
    requires Grown(s, s') && LetterFits(s, ch) && ch in s'.letters && s'.letters[ch] == s.letters[ch]
    ensures LetterFits(s', ch)
  {
    CallbackStays(s, s', Callback(s.flows[ch].id, s.letters[ch].state, s.letters[ch].seen));
    assert FlowKept(s.flows[ch], s'.flows[ch]);
  }

  lemma LetterStep(s: Sys, e: Event, s': Sys, ch: nat)
    requires LoginsFit(s) && DeliveriesFit(s) && Next(s, e) == Some(s') && ch in s'.letters
    ensures LetterFits(s', ch)
  {
    if ch in s.letters && s'.letters[ch] == s.letters[ch] {
      assert LetterFits(s, ch);
      GrowStep(s, e, s');
      LetterStays(s, s', ch);
    } else {
      SentLetter(s, e, s', ch);
    }
  }

  lemma FlowIdStays(s: Sys, e: Event, s': Sys, f: nat)
    requires Next(s, e) == Some(s') && f < |s.flows|
    ensures f < |s'.flows| && s'.flows[f].id == s.flows[f].id
  {
  }

  lemma SentLetter(s: Sys, e: Event, s': Sys, ch: nat)
    requires LoginsFit(s) && DeliveriesFit(s) && Next(s, e) == Some(s') && ch in s'.letters
    requires !(ch in s.letters && s'.letters[ch] == s.letters[ch])
    ensures LetterFits(s', ch)
  {
    OnlySendDelivers(s, e, s', ch);
    var c := s.callbacks[e.k];
    assert CallbackFits(s, c) && OwnerFits(s, c.id);
  }

  lemma OnlySendDelivers(s: Sys, e: Event, s': Sys, ch: nat)
    requires Next(s, e) == Some(s') && ch in s'.letters && !(ch in s.letters && s'.letters[ch] == s.letters[ch])
    ensures e.Send? && e.k < |s.callbacks|
    ensures var c := s.callbacks[e.k];
            && c.id in s.m.entries && s.m.entries[c.id].code == Some(ch) && s'.letters[ch] == Letter(c.state, c.seen)
            && s'.flows == s.flows && s'.published == s.published && s'.installed == s.installed && s'.m == s.m
  {
  }

  lemma CallbackStep(s: Sys, e: Event, s': Sys, k: nat)
    requires LoginsFit(s) && DeliveriesFit(s) && Next(s, e) == Some(s') && k < |s'.callbacks|
    ensures CallbackFits(s', s'.callbacks[k])
  {
    if s'.callbacks[k] in s.callbacks {
      GrowStep(s, e, s');
      CallbackStays(s, s', s'.callbacks[k]);
    } else {
      NewCallback(s, e, s', k);
    }
  }

  lemma NewCallback(s: Sys, e: Event, s': Sys, k: nat)
    requires LoginsFit(s) && Next(s, e) == Some(s') && k < |s'.callbacks| && s'.callbacks[k] !in s.callbacks
    ensures CallbackFits(s', s'.callbacks[k])
  {
    assert e.Lookup?;
    assert OwnerFits(s, e.id) && PendingFits(s, e.id);
  }

  lemma ReauthStays(s: Sys, s': Sys, r: Reauth)
    requires Grown(s, s') && ReauthFits(s, r)
    ensures ReauthFits(s', r)
  {
    StateStays(s, s', r.state);
    if r.at.Listening? && r.at.chan.Some? {
      assert FlowKept(s.flows[r.at.chan.value], s'.flows[r.at.chan.value]);
    }
  }

  lemma ReauthStep(s: Sys, e: Event, s': Sys, k: nat)
    requires LoginsFit(s) && DeliveriesFit(s) && Next(s, e) == Some(s') && k < |s'.reauths|
    ensures ReauthFits(s', s'.reauths[k])
  {
    if s'.reauths[k] in s.reauths {
      GrowStep(s, e, s');
      ReauthStays(s, s', s'.reauths[k]);
    } else {
      NewReauth(s, e, s', k);
    }
  }

  lemma NewReauth(s: Sys, e: Event, s': Sys, k: nat)
    requires LoginsFit(s) && DeliveriesFit(s) && Next(s, e) == Some(s') && k < |s'.reauths| && s'.reauths[k] !in s.reauths
    ensures ReauthFits(s', s'.reauths[k])
  {
    if e.Listen? {
      HeardReauth(s, e, s');
    } else {
      assert e.Reauthorize?;
    }
  }

  lemma HeardReauth(s: Sys, e: Event, s': Sys)
    requires LoginsFit(s) && DeliveriesFit(s) && Next(s, e) == Some(s') && e.Listen?
    ensures e.r < |s'.reauths| && ReauthFits(s', s'.reauths[e.r])
    ensures |s'.reauths| == |s.reauths| && forall k :: 0 <= k < |s.reauths| && k != e.r ==> s'.reauths[k] == s.reauths[k]
  {
    assert ReauthFits(s, s.reauths[e.r]);
    assert OwnerFits(s, UpstreamOf(s, s.reauths[e.r].state));
  }

  ghost predicate Inv(s: Sys) {
    Consistent(s.m) && WaitersFit(s) && LoginsFit(s) && DeliveriesFit(s)
  }

  lemma InvStep(s: Sys, e: Event, s': Sys)
    requires Inv(s) && Next(s, e) == Some(s')
    ensures Inv(s')
  {
    ConsistentStep(s, e, s');
    WaitersStep(s, e, s');
    LoginsStep(s, e, s');
    forall k | 0 <= k < |s'.callbacks| ensures CallbackFits(s', s'.callbacks[k]) {
      CallbackStep(s, e, s', k);
    }
    forall ch | ch in s'.letters ensures LetterFits(s', ch) {
      LetterStep(s, e, s', ch);
    }
    forall r | 0 <= r < |s'.reauths| ensures ReauthFits(s', s'.reauths[r]) {
      ReauthStep(s, e, s', r);
    }
  }

  lemma {:induction false} InvAlways(s: Sys, es: seq<Event>)
    requires Inv(s) && Exec(s, es).Some?
    ensures Inv(Exec(s, es).value)
  {
    if es != [] {
      var before := es[..|es| - 1];
      InvAlways(s, before);
      InvStep(Exec(s, before).value, es[|es| - 1], Exec(s, es).value);
    }
  }

  /** A state reachable from a fresh manager. */
  ghost predicate Reachable(s: Sys) {
    exists s0, es :: IsInit(s0) && Exec(s0, es) == Some(s)
  }

  lemma ReachableInv(s: Sys)
    requires Reachable(s)
    ensures Inv(s)
  {
    var s0, es :| IsInit(s0) && Exec(s0, es) == Some(s);
    InvAlways(s0, es);
  }

  /** Over any mix of logins, re-logins, re-authorizations and rejections:
      credentials exist exactly while the current ready channel is closed, no
      channel is closed twice, and a waiter waits on the current channel or on a
      closed one, so that while credentials exist every waiter can wake. */
  lemma WaitersAreWoken(s: Sys)
    requires Reachable(s)
    ensures !s.m.closedTwice
    ensures forall id :: id in s.m.entries ==> (s.m.entries[id].handler.Some? <==> s.m.entries[id].ready in s.m.closed)
    ensures forall k :: 0 <= k < |s.waiters| ==>
              && s.waiters[k].id in s.m.entries
              && (s.waiters[k].chan != s.m.entries[s.waiters[k].id].ready ==> Next(s, Wake(k)).Some?)
              && (s.m.entries[s.waiters[k].id].handler.Some? ==> Next(s, Wake(k)).Some?)
  {
    ReachableInv(s);
  }

  /** Whoever waits for an upstream waits on its current channel, and once its
      credentials are there, or have been since, can go on; that ends the wait. */
  lemma WaitAndWake(s: Sys, id: string)
    requires Reachable(s) && id in s.m.entries
    ensures var n := |s.waiters|;
            && Next(s, Wait(id)) == Some(s.(waiters := s.waiters + [Waiter(id, s.m.entries[id].ready)]))
            && (s.m.entries[id].handler.Some? ==> Next(Next(s, Wait(id)).value, Wake(n)) == Some(s))
  {
    ReachableInv(s);
    AppendRemove(s.waiters, Waiter(id, s.m.entries[id].ready));
  }

  lemma AppendRemove<T>(s: seq<T>, e: T)
    ensures (s + [e])[..|s|] + (s + [e])[|s| + 1..] == s
  {
  }

  /** Where a probe can be built, a login is in progress exactly while one flow
      of that upstream is active, and it is the one the entry names. */
  lemma OneLoginAtATime(s: Sys, id: string)
    requires Reachable(s) && id in s.m.entries && s.m.entries[id].wellFormed
    ensures s.m.entries[id].code.Some? <==> exists i :: 0 <= i < |s.flows| && s.flows[i].id == id && Active(s.flows[i])
    ensures forall i :: 0 <= i < |s.flows| && s.flows[i].id == id && Active(s.flows[i]) ==> s.m.entries[id].code == Some(i)
    ensures s.m.entries[id].code.Some? ==> Next(s, StartLogin(id)) == Some(s)
  {
    ReachableInv(s);
    assert OwnerFits(s, id);
    forall i | 0 <= i < |s.flows| && s.flows[i].id == id && Active(s.flows[i])
      ensures s.m.entries[id].code == Some(i)
    {
      assert FlowFits(s, i);
    }
  }

  /** Only its owner ends a login. */
  lemma OnlyOwnerClears(s: Sys, e: Event, s': Sys, id: string, i: nat)
    requires Reachable(s) && Next(s, e) == Some(s')
    requires id in s.m.entries && s.m.entries[id].code == Some(i)
    ensures id in s'.m.entries && (s'.m.entries[id].code == Some(i) || e == ProbeFailed(i) || e == Clear(i))
  {
    ReachableInv(s);
    OwnerClears(s, e, s', id, i);
  }

  lemma OwnerClears(s: Sys, e: Event, s': Sys, id: string, i: nat)
    requires LoginsFit(s) && Next(s, e) == Some(s') && id in s.m.entries && s.m.entries[id].code == Some(i)
    ensures id in s'.m.entries && (s'.m.entries[id].code == Some(i) || e == ProbeFailed(i) || e == Clear(i))
  {
    CodeMoves(s, e, s', id);
    if e.ProbeFailed? || e.Clear? {
      assert FlowFits(s, e.f);
    }
  }

  /** The claim of an entry moves at the start of a login and at the end of a flow only. */
  lemma CodeMoves(s: Sys, e: Event, s': Sys, id: string)
    requires Next(s, e) == Some(s') && id in s.m.entries
    ensures id in s'.m.entries
    ensures s'.m.entries[id].code != s.m.entries[id].code ==>
              || (e == StartLogin(id) && s.m.entries[id].code.None?)
              || ((e.ProbeFailed? || e.Clear?) && e.f < |s.flows| && s.flows[e.f].id == id && Active(s.flows[e.f]))
  {
  }

  lemma FinishedStays(s: Sys, e: Event, s': Sys, i: nat)
    requires Next(s, e) == Some(s') && i < |s.flows| && s.flows[i].pc == Finished
    ensures i < |s'.flows| && s'.flows[i].pc == Finished
  {
  }

  /** A state matches at most one entry, so the order in which a callback looks
      through them does not matter. */
  lemma OneEntryMatches(s: Sys, a: string, b: string, state: string)
    requires Reachable(s) && Matches(s.m, a, state) && Matches(s.m, b, state)
    ensures a == b
  {
    ReachableInv(s);
    assert PendingFits(s, a) && PendingFits(s, b);
  }

  /** A malformed URL leaves the login claimed for good: every later start is refused. */
  lemma {:induction false} MalformedLoginStuck(s: Sys, id: string, i: nat, es: seq<Event>)
    requires Inv(s) && id in s.m.entries && s.m.entries[id].code == Some(i) && i < |s.flows| && s.flows[i].pc == Finished
    requires Exec(s, es).Some?
    ensures var t := Exec(s, es).value;
            && Inv(t) && id in t.m.entries && t.m.entries[id].code == Some(i)
            && i < |t.flows| && t.flows[i].pc == Finished && Next(t, StartLogin(id)) == Some(t)
  {
    if es != [] {
      var before := es[..|es| - 1];
      MalformedLoginStuck(s, id, i, before);
      InvStep(Exec(s, before).value, es[|es| - 1], Exec(s, es).value);
      StuckStep(Exec(s, before).value, es[|es| - 1], Exec(s, es).value, id, i);
    }
  }

  lemma StuckStep(t: Sys, e: Event, t': Sys, id: string, i: nat)
    requires LoginsFit(t) && id in t.m.entries && t.m.entries[id].code == Some(i) && i < |t.flows| && t.flows[i].pc == Finished
    requires Next(t, e) == Some(t')
    ensures id in t'.m.entries && t'.m.entries[id].code == Some(i) && i < |t'.flows| && t'.flows[i].pc == Finished
  {
    FinishedStays(t, e, t', i);
    OwnerClears(t, e, t', id, i);
  }

  predicate Claimed(s: Sys, id: string) {
    id in s.m.entries && s.m.entries[id].code.Some?
  }

  /** In every continuation the login is claimed, so no start succeeds ever again. */
  ghost predicate Jammed(s: Sys, id: string) {
    forall es :: Exec(s, es).Some? ==> Claimed(Exec(s, es).value, id)
  }

  ghost predicate CanJam(s: Sys, id: string) {
    exists es :: Exec(s, es).Some? && Jammed(Exec(s, es).value, id)
  }

  lemma OneEvent(s: Sys, a: Event)
    ensures Exec(s, [a]) == Next(s, a)
  {
    assert [a][..0] == [] && Exec(s, []) == Some(s);
  }

  lemma TwoEvents(s: Sys, a: Event, b: Event)
    requires Next(s, a).Some?
    ensures Exec(s, [a, b]) == Next(Next(s, a).value, b)
  {
    OneEvent(s, a);
    assert [a, b][..1] == [a];
  }

  lemma {:induction false} UrlStays(s: Sys, es: seq<Event>, id: string)
    requires Inv(s) && id in s.m.entries && Exec(s, es).Some?
    ensures var t := Exec(s, es).value;
            Inv(t) && id in t.m.entries && t.m.entries[id].wellFormed == s.m.entries[id].wellFormed
  {
    if es != [] {
      var before := es[..|es| - 1];
      UrlStays(s, before, id);
      InvStep(Exec(s, before).value, es[|es| - 1], Exec(s, es).value);
      UrlStep(Exec(s, before).value, es[|es| - 1], Exec(s, es).value, id);
    }
  }

  lemma UrlStep(s: Sys, e: Event, s': Sys, id: string)
    requires Next(s, e) == Some(s') && id in s.m.entries
    ensures id in s'.m.entries && s'.m.entries[id].wellFormed == s.m.entries[id].wellFormed
  {
  }

  /** Where a probe can be built, any login can be brought to its end. */
  lemma LoginCanEnd(s: Sys, id: string) returns (es: seq<Event>)
    requires Inv(s) && id in s.m.entries && s.m.entries[id].wellFormed
    ensures Exec(s, es).Some? && !Claimed(Exec(s, es).value, id)
  {
    if s.m.entries[id].code.None? {
      es := [];
    } else {
      var i := s.m.entries[id].code.value;
      assert OwnerFits(s, id);
      assert FlowFits(s, i);
      match s.flows[i].pc
      case Probing =>
        es := [ProbeFailed(i)];
        OneEvent(s, ProbeFailed(i));
      case Clearing =>
        es := [Clear(i)];
        OneEvent(s, Clear(i));
      case _ =>
        es := [GiveUp(i), Clear(i)];
        TwoEvents(s, GiveUp(i), Clear(i));
    }
  }

  /** Where none can be built, the login can be brought to where it stays claimed. */
  lemma LoginCanStick(s: Sys, id: string) returns (es: seq<Event>, i: nat)
    requires Inv(s) && id in s.m.entries && !s.m.entries[id].wellFormed
    ensures Exec(s, es).Some?
    ensures var t := Exec(s, es).value;
            Inv(t) && id in t.m.entries && t.m.entries[id].code == Some(i) && i < |t.flows| && t.flows[i].pc == Finished
  {
    assert OwnerFits(s, id);
    if s.m.entries[id].code.None? {
      i := |s.flows|;
      es := [StartLogin(id), ProbeMalformed(i)];
      TwoEvents(s, StartLogin(id), ProbeMalformed(i));
    } else {
      i := s.m.entries[id].code.value;
      assert FlowFits(s, i);
      if Active(s.flows[i]) {
        es := [ProbeMalformed(i)];
        OneEvent(s, ProbeMalformed(i));
      } else {
        es := [];
      }
    }
    UrlStays(s, es, id);
  }

  /** A login can get stuck for good, in some continuation, exactly when the
      upstream's URL does not make a probe request. */
  lemma LoginCanJamIff(s: Sys, id: string)
    requires Inv(s) && id in s.m.entries
    ensures CanJam(s, id) <==> !s.m.entries[id].wellFormed
  {
    if s.m.entries[id].wellFormed {
      forall es | Exec(s, es).Some? ensures !Jammed(Exec(s, es).value, id) {
        UrlStays(s, es, id);
        var end := LoginCanEnd(Exec(s, es).value, id);
      }
    } else {
      var es, i := LoginCanStick(s, id);
      var t := Exec(s, es).value;
      forall more | Exec(t, more).Some? ensures Claimed(Exec(t, more).value, id) {
        MalformedLoginStuck(t, id, i, more);
      }
      assert Jammed(t, id);
    }
  }

  /** In every run of a fresh manager, whether a login can still get stuck is settled at
      the start. */
  lemma RunCanJamIff(s0: Sys, es: seq<Event>, id: string)
    requires IsInit(s0) && Exec(s0, es).Some? && id in s0.m.entries
    ensures CanJam(Exec(s0, es).value, id) <==> !s0.m.entries[id].wellFormed
  {
    assert Exec(s0, []) == Some(s0);
    InvAlways(s0, []);
    UrlStays(s0, es, id);
    LoginCanJamIff(Exec(s0, es).value, id);
  }

  /** And such a state is reached from a fresh manager. */
  lemma JamIsReachable(id: string) returns (s: Sys)
    ensures Reachable(s) && Jammed(s, id)
  {
    var s0 := Lone(id, IDLE.(wellFormed := false), [], [], map[], map[]);
    assert Exec(s0, []) == Some(s0) && IsInit(s0);
    InvAlways(s0, []);
    LoginCanJamIff(s0, id);
    var es :| Exec(s0, es).Some? && Jammed(Exec(s0, es).value, id);
    s := Exec(s0, es).value;
  }

  /** A code only ever reaches a login of the upstream its state was drawn for. It
      carries the state that login asked for exactly when that login drew it, that
      is, when the callback found this login and a flow's state pending there, not
      one of a re-authorization. */
  lemma CodesReachTheirUpstream(s: Sys, ch: nat)
    requires Reachable(s) && ch in s.letters
    ensures ch < |s.flows|
    ensures var l := s.letters[ch];
            && l.seen < |s.flows| && s.flows[l.seen].id == s.flows[ch].id
            && StateFits(s, l.state) && UpstreamOf(s, l.state) == s.flows[ch].id
            && (l.state == s.flows[ch].expected <==> s.published[l.state] == ByFlow(ch))
            && (l.state == s.flows[ch].expected <==> l.seen == ch && s.published[l.state].ByFlow?)
  {
    ReachableInv(s);
    assert LetterFits(s, ch) && FlowFits(s, ch);
  }

  /** A re-authorization that gets a code takes it from a login of its own upstream. */
  lemma ReauthorizationsTakeOwnCodes(s: Sys, r: nat)
    requires Reachable(s) && r < |s.reauths| && Next(s, Take(r)).Some?
    ensures var ch := s.reauths[r].at.chan.value;
            && ch < |s.flows| && StateFits(s, s.reauths[r].state) && StateFits(s, s.letters[ch].state)
            && UpstreamOf(s, s.reauths[r].state) == s.flows[ch].id == UpstreamOf(s, s.letters[ch].state)
  {
    ReachableInv(s);
    assert ReauthFits(s, s.reauths[r]);
    assert LetterFits(s, s.reauths[r].at.chan.value);
  }

  /** The run shows the state of flow `i` somewhere. */
  ghost predicate Shown(es: seq<Event>, i: nat) {
    exists j :: 0 <= j < |es| && es[j].Publish? && es[j].f == i
  }

  predicate ReauthorizesAt(s: Sys, e: Event, id: string) {
    e.Reauthorize? && e.f < |s.flows| && s.flows[e.f].id == id
  }

  /** A handler of the upstream shows a state of its own after flow `i` has shown its. */
  ghost predicate Overwritten(s: Sys, es: seq<Event>, i: nat)
    requires i < |s.flows|
  {
    exists k :: 0 <= k < |es| && ReauthorizesAt(s, es[k], s.flows[i].id) && Shown(es[..k], i)
  }

  lemma ShownLast(es: seq<Event>, i: nat)
    requires es != []
    ensures var last := es[|es| - 1];
            Shown(es, i) <==> Shown(es[..|es| - 1], i) || (last.Publish? && last.f == i)
  {
    var before := es[..|es| - 1];
    if Shown(before, i) {
      var j :| 0 <= j < |before| && before[j].Publish? && before[j].f == i;
      assert es[j] == before[j];
    }
    if Shown(es, i) {
      var j :| 0 <= j < |es| && es[j].Publish? && es[j].f == i;
      assert j < |before| ==> before[j] == es[j];
    }
  }

  lemma OverwrittenLast(s: Sys, es: seq<Event>, i: nat)
    requires es != [] && i < |s.flows|
    ensures var before := es[..|es| - 1];
            Overwritten(s, es, i) <==>
              Overwritten(s, before, i) || (ReauthorizesAt(s, es[|es| - 1], s.flows[i].id) && Shown(before, i))
  {
    var before := es[..|es| - 1];
    assert forall k :: 0 <= k < |before| ==> before[k] == es[k] && before[..k] == es[..k];
  }

  /** The same question asked of a later state. */
  lemma OverwrittenStays(t: Sys, e: Event, s: Sys, es: seq<Event>, i: nat)
    requires Next(t, e) == Some(s) && i < |t.flows| && i < |s.flows|
    requires forall k :: 0 <= k < |es| && es[k].Reauthorize? ==> es[k].f < |t.flows|
    ensures Overwritten(s, es, i) <==> Overwritten(t, es, i)
  {
    FlowIdStays(t, e, s, i);
    forall k | 0 <= k < |es|
      ensures ReauthorizesAt(s, es[k], s.flows[i].id) <==> ReauthorizesAt(t, es[k], t.flows[i].id)
    {
      if es[k].Reauthorize? {
        FlowIdStays(t, e, s, es[k].f);
      }
    }
  }

  /** A flow has a state exactly when the run has shown one. */
  lemma {:induction false} ShownIff(s0: Sys, es: seq<Event>, i: nat)
    requires IsInit(s0) && Exec(s0, es).Some?
    ensures var s := Exec(s0, es).value; Shown(es, i) <==> i < |s.flows| && s.flows[i].expected != ""
  {
    if es != [] {
      var before, e := es[..|es| - 1], es[|es| - 1];
      ShownIff(s0, before, i);
      ShownLast(es, i);
      FlowsGrow(Exec(s0, before).value, e, Exec(s0, es).value, i);
    }
  }

  lemma {:induction false} HandlersExist(s0: Sys, es: seq<Event>)
    requires Exec(s0, es).Some?
    ensures forall k :: 0 <= k < |es| && es[k].Reauthorize? ==> es[k].f < |Exec(s0, es).value.flows|
  {
    if es != [] {
      var before, e := es[..|es| - 1], es[|es| - 1];
      HandlersExist(s0, before);
      FlowsGrow(Exec(s0, before).value, e, Exec(s0, es).value, 0);
      assert forall k :: 0 <= k < |before| ==> es[k] == before[k];
    }
  }

  lemma FlowsGrow(t: Sys, e: Event, s: Sys, i: nat)
    requires Next(t, e) == Some(s)
    ensures |t.flows| <= |s.flows| && (e.Reauthorize? ==> e.f < |t.flows|)
    ensures i < |s.flows| && s.flows[i].expected != "" <==>
            (i < |t.flows| && t.flows[i].expected != "") || (e.Publish? && e.f == i)
  {
  }

  /** The entry of flow `i` shows the state of that flow in `s` as it did in `t`. */
  predicate ShowsAsBefore(t: Sys, s: Sys, i: nat) {
    && i < |t.flows| && i < |s.flows| && Active(t.flows[i])
    && s.flows[i].id == t.flows[i].id && s.flows[i].expected == t.flows[i].expected
    && t.flows[i].id in t.m.entries && t.flows[i].id in s.m.entries
    && s.m.entries[t.flows[i].id].loginState == t.m.entries[t.flows[i].id].loginState
  }

  lemma FlowStepShows(t: Sys, e: Event, s: Sys, i: nat)
    requires LoginsFit(t) && Next(t, e) == Some(s) && !(e.Publish? && e.f == i)
    requires e.ProbeFailed? || e.Clear? || e.Publish?
    requires i < |t.flows| && i < |s.flows| && t.flows[i].expected != "" && Active(s.flows[i])
    ensures ShowsAsBefore(t, s, i)
  {
    assert FlowFits(t, i) && FlowFits(t, e.f);
  }

  lemma QuietStepShows(t: Sys, e: Event, s: Sys, i: nat)
    requires LoginsFit(t) && Next(t, e) == Some(s)
    requires OfFlow(e) && !e.ProbeFailed? && !e.Clear? && !e.Publish?
    requires i < |t.flows| && i < |s.flows| && t.flows[i].expected != "" && Active(s.flows[i])
    ensures ShowsAsBefore(t, s, i)
  {
    assert FlowFits(t, i);
  }

  lemma OtherStepShows(t: Sys, e: Event, s: Sys, i: nat)
    requires LoginsFit(t) && Next(t, e) == Some(s) && !OfFlow(e)
    requires i < |t.flows| && i < |s.flows| && t.flows[i].expected != "" && Active(s.flows[i])
    requires !ReauthorizesAt(s, e, s.flows[i].id)
    ensures ShowsAsBefore(t, s, i)
  {
    assert FlowFits(t, i);
  }

  lemma ReauthorizeHides(t: Sys, e: Event, s: Sys, i: nat)
    requires LoginsFit(t) && Next(t, e) == Some(s)
    requires i < |t.flows| && i < |s.flows| && t.flows[i].expected != "" && Active(s.flows[i])
    requires ReauthorizesAt(s, e, s.flows[i].id)
    ensures Active(t.flows[i]) && s.flows[i] == t.flows[i] && s.flows[i].id in s.m.entries
    ensures s.m.entries[s.flows[i].id].loginState != s.flows[i].expected
  {
    assert FlowFits(t, i);
  }

  lemma OwnStateShown(t: Sys, e: Event, s: Sys, i: nat)
    requires LoginsFit(t) && Next(t, e) == Some(s) && e.Publish? && e.f == i
    ensures i < |t.flows| && t.flows[i].expected == "" && !ReauthorizesAt(s, e, s.flows[i].id)
    ensures s.flows[i].id in s.m.entries && s.m.entries[s.flows[i].id].loginState == s.flows[i].expected
  {
    assert FlowFits(t, i);
  }

  /** A login in progress that has shown its URL has lost its state, so that no
      callback for that URL can be matched, exactly when a handler of the same upstream
      has re-authorized since. */
  lemma {:induction false} OwnStateLostIff(s0: Sys, es: seq<Event>, i: nat)
    requires IsInit(s0) && Exec(s0, es).Some?
    requires var s := Exec(s0, es).value; i < |s.flows| && Active(s.flows[i]) && s.flows[i].expected != ""
    ensures var s := Exec(s0, es).value;
            && s.flows[i].id in s.m.entries
            && (s.m.entries[s.flows[i].id].loginState != s.flows[i].expected <==> Overwritten(s, es, i))
  {
    if es != [] {
      var before, e := es[..|es| - 1], es[|es| - 1];
      var t, s := Exec(s0, before).value, Exec(s0, es).value;
      InvAlways(s0, before);
      ShownIff(s0, before, i);
      FlowsGrow(t, e, s, i);
      OverwrittenLast(s, es, i);
      if e.Publish? && e.f == i {
        OwnStateShown(t, e, s, i);
        assert forall k :: 0 <= k < |before| ==> !Shown(before[..k], i) by {
          assert !Shown(before, i);
        }
      } else {
        if ReauthorizesAt(s, e, s.flows[i].id) {
          ReauthorizeHides(t, e, s, i);
        } else if e.ProbeFailed? || e.Clear? || e.Publish? {
          FlowStepShows(t, e, s, i);
        } else if OfFlow(e) {
          QuietStepShows(t, e, s, i);
        } else {
          OtherStepShows(t, e, s, i);
        }
        HandlersExist(s0, before);
        OverwrittenStays(t, e, s, before, i);
        OwnStateLostIff(s0, before, i);
      }
    }
  }

  /** The steps that settle which handler an upstream has: its logins completing, and
      its credentials being rejected. */
  predicate SetsHandler(s: Sys, e: Event, id: string) {
    || (e.Complete? && e.f < |s.flows| && s.flows[e.f].id == id)
    || (e.Reject? && e.id == id)
  }

  /** The steps that settle what its entry shows: a login or a re-authorization showing
      its state, and a login being cleared. */
  predicate SetsShown(s: Sys, e: Event, id: string) {
    || ((e.Publish? || e.Reauthorize? || e.ProbeFailed? || e.Clear?) && e.f < |s.flows| && s.flows[e.f].id == id)
  }

  ghost predicate LastHandlerStep(s: Sys, es: seq<Event>, id: string, j: nat) {
    j < |es| && SetsHandler(s, es[j], id) && forall k :: j < k < |es| ==> !SetsHandler(s, es[k], id)
  }

  ghost predicate LastShownStep(s: Sys, es: seq<Event>, id: string, j: nat) {
    j < |es| && SetsShown(s, es[j], id) && forall k :: j < k < |es| ==> !SetsShown(s, es[k], id)
  }

  lemma HandlerStep(s: Sys, e: Event, s': Sys, id: string)
    requires Next(s, e) == Some(s') && id in s.m.entries
    ensures id in s'.m.entries
    ensures if SetsHandler(s, e, id) then Installs(e, s'.m.entries[id])
            else s'.m.entries[id].handler == s.m.entries[id].handler
  {
  }

  lemma ShownStep(s: Sys, e: Event, s': Sys, id: string)
    requires Next(s, e) == Some(s') && id in s.m.entries
    ensures id in s'.m.entries
    ensures if SetsShown(s, e, id) then ShownBy(e, s'.m.entries[id])
            else s'.m.entries[id].loginState == s.m.entries[id].loginState && s'.m.entries[id].loginURL == s.m.entries[id].loginURL
  {
    if e.Publish? || e.Reauthorize? || e.ProbeFailed? || e.Clear? {
      LoginStepShows(s, e, s', id);
    }
  }

  lemma LoginStepShows(s: Sys, e: Event, s': Sys, id: string)
    requires Next(s, e) == Some(s') && id in s.m.entries && id in s'.m.entries
    requires e.Publish? || e.Reauthorize? || e.ProbeFailed? || e.Clear?
    ensures if SetsShown(s, e, id) then ShownBy(e, s'.m.entries[id])
            else s'.m.entries[id] == s.m.entries[id]
  {
  }

  /** What an entry shows after a step that settles it. */
  predicate ShownBy(e: Event, entry: Entry) {
    if e.Publish? || e.Reauthorize? then entry.loginState == e.state && entry.loginURL == e.url
    else entry.loginState == "" && entry.loginURL == ""
  }

  /** An event that names a flow names one that exists. */
  lemma {:induction false} EventFlowsExist(s0: Sys, es: seq<Event>)
    requires Exec(s0, es).Some?
    ensures forall k :: 0 <= k < |es| && NamesFlow(es[k]) ==> es[k].f < |Exec(s0, es).value.flows|
  {
    if es != [] {
      var before, e := es[..|es| - 1], es[|es| - 1];
      EventFlowsExist(s0, before);
      NamedFlowExists(Exec(s0, before).value, e, Exec(s0, es).value);
      assert forall k :: 0 <= k < |before| ==> es[k] == before[k];
    }
  }

  predicate NamesFlow(e: Event) {
    OfFlow(e) || e.Reauthorize?
  }

  lemma NamedFlowExists(s: Sys, e: Event, s': Sys)
    requires Next(s, e) == Some(s')
    ensures |s.flows| <= |s'.flows| && (NamesFlow(e) ==> e.f < |s.flows|)
  {
  }

  /** Which upstream an event concerns does not change as the run goes on. */
  lemma ConcernsStill(t: Sys, e: Event, s: Sys, x: Event, id: string)
    requires Next(t, e) == Some(s) && (NamesFlow(x) ==> x.f < |t.flows|)
    ensures SetsHandler(s, x, id) <==> SetsHandler(t, x, id)
    ensures SetsShown(s, x, id) <==> SetsShown(t, x, id)
  {
    if NamesFlow(x) {
      FlowIdStays(t, e, s, x.f);
    }
  }

  /** The handler is what the last step to settle it made it, or `initial`. */
  ghost predicate HandlerSettled(s: Sys, es: seq<Event>, id: string, initial: Option<nat>) {
    && id in s.m.entries
    && (forall j: nat :: LastHandlerStep(s, es, id, j) ==> Installs(es[j], s.m.entries[id]))
    && ((forall j :: 0 <= j < |es| ==> !SetsHandler(s, es[j], id)) ==> s.m.entries[id].handler == initial)
  }

  /** What is shown is what the last step to settle it showed, or nothing. */
  ghost predicate ShownSettled(s: Sys, es: seq<Event>, id: string) {
    && id in s.m.entries
    && (forall j: nat :: LastShownStep(s, es, id, j) ==> ShownBy(es[j], s.m.entries[id]))
    && ((forall j :: 0 <= j < |es| ==> !SetsShown(s, es[j], id)) ==>
          s.m.entries[id].loginState == "" && s.m.entries[id].loginURL == "")
  }

  lemma HandlerSettles(t: Sys, s: Sys, es: seq<Event>, id: string, initial: Option<nat>)
    requires es != [] && HandlerSettled(t, es[..|es| - 1], id, initial) && id in s.m.entries
    requires forall k :: 0 <= k < |es| - 1 ==> (SetsHandler(s, es[k], id) <==> SetsHandler(t, es[k], id))
    requires if SetsHandler(s, es[|es| - 1], id) then Installs(es[|es| - 1], s.m.entries[id])
             else s.m.entries[id].handler == t.m.entries[id].handler
    ensures HandlerSettled(s, es, id, initial)
  {
    var before := es[..|es| - 1];
    assert forall k :: 0 <= k < |before| ==> before[k] == es[k];
    forall j: nat | LastHandlerStep(s, es, id, j) ensures Installs(es[j], s.m.entries[id]) {
      if j < |before| {
        assert LastHandlerStep(t, before, id, j);
      }
    }
  }

  /** The handler an entry has after a step that settles it. */
  predicate Installs(e: Event, entry: Entry) {
    entry.handler == if e.Complete? then Some(e.handler) else None
  }

  lemma ShownSettles(t: Sys, s: Sys, es: seq<Event>, id: string)
    requires es != [] && ShownSettled(t, es[..|es| - 1], id) && id in s.m.entries
    requires forall k :: 0 <= k < |es| - 1 ==> (SetsShown(s, es[k], id) <==> SetsShown(t, es[k], id))
    requires if SetsShown(s, es[|es| - 1], id) then ShownBy(es[|es| - 1], s.m.entries[id])
             else s.m.entries[id].loginState == t.m.entries[id].loginState && s.m.entries[id].loginURL == t.m.entries[id].loginURL
    ensures ShownSettled(s, es, id)
  {
    var before := es[..|es| - 1];
    assert forall k :: 0 <= k < |before| ==> before[k] == es[k];
    forall j: nat | LastShownStep(s, es, id, j) ensures ShownBy(es[j], s.m.entries[id]) {
      if j < |before| {
        assert LastShownStep(t, before, id, j);
      }
    }
  }

  /** In every run an upstream's handler is the one its last completed login installed,
      and none if its credentials have been rejected since; with neither it is the one
      it started with. */
  lemma {:induction false} HandlerIsLastInstalled(s0: Sys, es: seq<Event>, id: string)
    requires Exec(s0, es).Some? && id in s0.m.entries
    ensures HandlerSettled(Exec(s0, es).value, es, id, s0.m.entries[id].handler)
  {
    if es != [] {
      var before, e := es[..|es| - 1], es[|es| - 1];
      var t, s := Exec(s0, before).value, Exec(s0, es).value;
      HandlerIsLastInstalled(s0, before, id);
      HandlerStep(t, e, s, id);
      LastConcerns(t, e, s, id);
      EarlierConcerns(s0, es, id);
      HandlerSettles(t, s, es, id, s0.m.entries[id].handler);
    }
  }

  /** In every run what an upstream's entry shows is what its last login or
      re-authorization showed, and nothing once a login has been cleared since. */
  lemma {:induction false} ShownIsLastPublished(s0: Sys, es: seq<Event>, id: string)
    requires IsInit(s0) && Exec(s0, es).Some? && id in s0.m.entries
    ensures ShownSettled(Exec(s0, es).value, es, id)
  {
    if es != [] {
      var before, e := es[..|es| - 1], es[|es| - 1];
      var t, s := Exec(s0, before).value, Exec(s0, es).value;
      ShownIsLastPublished(s0, before, id);
      ShownStep(t, e, s, id);
      LastConcerns(t, e, s, id);
      EarlierConcerns(s0, es, id);
      ShownSettles(t, s, es, id);
    }
  }

  lemma LastConcerns(t: Sys, e: Event, s: Sys, id: string)
    requires Next(t, e) == Some(s)
    ensures (SetsHandler(s, e, id) <==> SetsHandler(t, e, id)) && (SetsShown(s, e, id) <==> SetsShown(t, e, id))
  {
    NamedFlowExists(t, e, s);
    ConcernsStill(t, e, s, e, id);
  }

  lemma EarlierConcerns(s0: Sys, es: seq<Event>, id: string)
    requires es != [] && Exec(s0, es).Some?
    ensures var before := es[..|es| - 1];
            var t, s := Exec(s0, before).value, Exec(s0, es).value;
            forall k :: 0 <= k < |before| ==>
              && (SetsHandler(s, es[k], id) <==> SetsHandler(t, es[k], id))
              && (SetsShown(s, es[k], id) <==> SetsShown(t, es[k], id))
  {
    var before := es[..|es| - 1];
    var t, s := Exec(s0, before).value, Exec(s0, es).value;
    EventFlowsExist(s0, before);
    forall k | 0 <= k < |before|
      ensures (SetsHandler(s, es[k], id) <==> SetsHandler(t, es[k], id))
              && (SetsShown(s, es[k], id) <==> SetsShown(t, es[k], id))
    {
      assert before[k] == es[k];
      ConcernsStill(t, es[|es| - 1], s, before[k], id);
    }
  }

  lemma ReachStep(s: Sys, e: Event, s': Sys)
    requires Reachable(s) && Next(s, e) == Some(s')
    ensures Reachable(s')
  {
    var s0, es :| IsInit(s0) && Exec(s0, es) == Some(s);
    assert (es + [e])[..|es|] == es;
    assert Exec(s0, es + [e]) == Some(s');
  }

  /** The states of a manager with one upstream, before any login is through. */
  function Lone(id: string, e: Entry, flows: seq<Flow>, callbacks: seq<Callback>, letters: map<nat, Letter>,
                published: map<string, Publisher>): Sys
  {
    Sys(Mgr(map[id := e], {}, false, 1), flows, [], callbacks, letters, published, {}, [])
  }

  const IDLE := Entry(None, 0, None, "", "", true)

  lemma LoneStart(id: string) returns (s: Sys)
    ensures s == Lone(id, IDLE.(code := Some(0)), [Flow(id, Authorizing, "")], [], map[], map[]) && Reachable(s)
  {
    var s0 := Lone(id, IDLE, [], [], map[], map[]);
    assert Exec(s0, []) == Some(s0) && IsInit(s0);
    var s1 := Lone(id, IDLE.(code := Some(0)), [Flow(id, Probing, "")], [], map[], map[]);
    assert s0.m.entries[id := IDLE.(code := Some(0))] == s1.m.entries;
    assert s0.flows + [Flow(id, Probing, "")] == s1.flows;
    ReachStep(s0, StartLogin(id), s1);
    s := Lone(id, IDLE.(code := Some(0)), [Flow(id, Authorizing, "")], [], map[], map[]);
    assert SetPC(s1, 0, Authorizing) == s;
    ReachStep(s1, ProbeOk(0), s);
  }

  lemma LoneLookedUp(id: string) returns (s: Sys)
    ensures s == Lone(id, Entry(None, 0, Some(0), "x", "u", true), [Flow(id, Waiting, "x")], [Callback(id, "x", 0)], map[], map["x" := ByFlow(0)])
    ensures Reachable(s)
  {
    var s2 := LoneStart(id);
    var e := Entry(None, 0, Some(0), "x", "u", true);
    var s3 := Lone(id, e, [Flow(id, Waiting, "x")], [], map[], map["x" := ByFlow(0)]);
    assert s2.m.entries[id := e] == s3.m.entries && s2.published["x" := ByFlow(0)] == s3.published;
    assert s2.flows[0 := Flow(id, Waiting, "x")] == s3.flows;
    ReachStep(s2, Publish(0, "x", "u"), s3);
    s := s3.(callbacks := [Callback(id, "x", 0)]);
    assert s3.callbacks + [Callback(id, "x", 0)] == s.callbacks;
    ReachStep(s3, Lookup("x", id), s);
  }

  lemma LoneCleared(id: string) returns (s: Sys)
    ensures s == Lone(id, IDLE, [Flow(id, Finished, "x")], [Callback(id, "x", 0)], map[], map["x" := ByFlow(0)]) && Reachable(s)
  {
    var s4 := LoneLookedUp(id);
    var s5 := s4.(flows := [Flow(id, Clearing, "x")]);
    assert SetPC(s4, 0, Clearing) == s5;
    ReachStep(s4, GiveUp(0), s5);
    s := Lone(id, IDLE, [Flow(id, Finished, "x")], [Callback(id, "x", 0)], map[], map["x" := ByFlow(0)]);
    assert s5.m.entries[id := IDLE] == s.m.entries;
    assert SetPC(s5, 0, Finished).flows == s.flows;
    ReachStep(s5, Clear(0), s);
  }

  lemma LoneRestarted(id: string) returns (s: Sys)
    ensures Reachable(s)
    ensures s == Lone(id, IDLE.(code := Some(1)), [Flow(id, Finished, "x"), Flow(id, Probing, "")],
                      [Callback(id, "x", 0)], map[], map["x" := ByFlow(0)])
  {
    var s6 := LoneCleared(id);
    s := Lone(id, IDLE.(code := Some(1)), [Flow(id, Finished, "x"), Flow(id, Probing, "")],
                      [Callback(id, "x", 0)], map[], map["x" := ByFlow(0)]);
    assert s6.m.entries[id := IDLE.(code := Some(1))] == s.m.entries;
    assert s6.flows + [Flow(id, Probing, "")] == s.flows;
    ReachStep(s6, StartLogin(id), s);
  }

  /** The other case does occur: between a callback's lookup and its send the
      login can end and a new one begin, and the new flow gets the old code. */
  lemma StaleCodeCanArrive(id: string) returns (s: Sys)
    ensures Reachable(s) && |s.flows| == 2 && 1 in s.letters && s.letters[1].seen == 0
    ensures s.letters[1].state != s.flows[1].expected
  {
    var s7 := LoneRestarted(id);
    s := s7.(callbacks := [], letters := s7.letters[1 := Letter("x", 0)]);
    assert s7.callbacks[..0] + s7.callbacks[1..] == [];
    ReachStep(s7, Send(0), s);
  }

  /** An upstream logged in by flow 0, with nothing going on. */
  function LoggedIn(id: string): Sys {
    Lone(id, IDLE.(handler := Some(7)), [Flow(id, Finished, "x")], [], map[], map["x" := ByFlow(0)])
      .(m := Mgr(map[id := IDLE.(handler := Some(7))], {0}, false, 1), installed := {0})
  }

  lemma LoneExchanging(id: string) returns (s: Sys)
    ensures Reachable(s)
    ensures s == Lone(id, Entry(None, 0, Some(0), "x", "u", true), [Flow(id, Exchanging, "x")], [], map[], map["x" := ByFlow(0)])
  {
    var s0 := LoneLookedUp(id);
    var s1 := s0.(callbacks := [], letters := map[0 := Letter("x", 0)]);
    assert s0.callbacks[..0] + s0.callbacks[1..] == [] && s0.letters[0 := Letter("x", 0)] == s1.letters;
    ReachStep(s0, Send(0), s1);
    s := s1.(flows := [Flow(id, Exchanging, "x")], letters := map[]);
    assert SetPC(s1, 0, Exchanging).flows == s.flows && s1.letters - {0} == map[];
    ReachStep(s1, ReceiveCode(0), s);
  }

  lemma LoneCompleted(id: string) returns (s: Sys)
    ensures Reachable(s)
    ensures s == LoggedIn(id).(flows := [Flow(id, Clearing, "x")],
                               m := Mgr(map[id := Entry(Some(7), 0, Some(0), "x", "u", true)], {0}, false, 1))
  {
    var s0 := LoneExchanging(id);
    var e := Entry(Some(7), 0, Some(0), "x", "u", true);
    s := s0.(m := Mgr(map[id := e], {0}, false, 1), flows := [Flow(id, Clearing, "x")], installed := {0});
    assert SetPC(s0, 0, Clearing).flows == s.flows && s0.m.entries[id := e] == s.m.entries;
    assert LoginDone(s0.m, id, 7) == s.m && s0.installed + {0} == s.installed;
    ReachStep(s0, Complete(0, 7), s);
  }

  lemma LoginCanFinish(id: string)
    ensures Reachable(LoggedIn(id))
  {
    var s3 := LoneCompleted(id);
    var s4 := LoggedIn(id);
    assert SetPC(s3, 0, Finished).flows == s4.flows && s3.m.entries[id := IDLE.(handler := Some(7))] == s4.m.entries;
    ReachStep(s3, Clear(0), s4);
  }

  lemma AuthorizingAgain(id: string) returns (s: Sys)
    ensures Reachable(s)
    ensures s == LoggedIn(id).(m := Mgr(map[id := IDLE.(handler := Some(7), code := Some(1))], {0}, false, 1),
                               flows := [Flow(id, Finished, "x"), Flow(id, Authorizing, "")])
  {
    LoginCanFinish(id);
    var s0 := LoggedIn(id);
    var e := IDLE.(handler := Some(7), code := Some(1));
    var s1 := s0.(m := s0.m.(entries := map[id := e]), flows := [Flow(id, Finished, "x"), Flow(id, Probing, "")]);
    assert s0.m.entries[id := e] == s1.m.entries && s0.flows + [Flow(id, Probing, "")] == s1.flows;
    ReachStep(s0, StartLogin(id), s1);
    s := s1.(flows := [Flow(id, Finished, "x"), Flow(id, Authorizing, "")]);
    assert SetPC(s1, 1, Authorizing).flows == s.flows;
    ReachStep(s1, ProbeOk(1), s);
  }

  /** A login from there, as far as showing its URL. */
  lemma LoggedInAgain(id: string) returns (s: Sys)
    ensures Reachable(s)
    ensures s == LoggedIn(id).(m := Mgr(map[id := Entry(Some(7), 0, Some(1), "y", "u", true)], {0}, false, 1),
                               flows := [Flow(id, Finished, "x"), Flow(id, Waiting, "y")],
                               published := map["x" := ByFlow(0), "y" := ByFlow(1)])
  {
    var s2 := AuthorizingAgain(id);
    s := s2.(m := s2.m.(entries := map[id := Entry(Some(7), 0, Some(1), "y", "u", true)]),
             flows := [Flow(id, Finished, "x"), Flow(id, Waiting, "y")],
             published := map["x" := ByFlow(0), "y" := ByFlow(1)]);
    assert s2.m.entries[id := Entry(Some(7), 0, Some(1), "y", "u", true)] == s.m.entries;
    assert s2.flows[1 := Flow(id, Waiting, "y")] == s.flows && s2.published["y" := ByFlow(1)] == s.published;
    ReachStep(s2, Publish(1, "y", "u"), s);
  }

  /** That loss does occur: a callback for the URL of the login in progress finds nothing. */
  lemma OwnStateCanBeLost(id: string) returns (s: Sys)
    ensures Reachable(s) && |s.flows| == 2 && s.flows[1].pc == Waiting && s.callbacks == [] && s.letters == map[]
    ensures forall a :: !Matches(s.m, a, s.flows[1].expected)
    ensures s.published == map["x" := ByFlow(0), "y" := ByFlow(1), "z" := ByHandler(0)]
    ensures s.flows[1] == Flow(id, Waiting, "y") && s.m.entries == map[id := Entry(Some(7), 0, Some(1), "z", "u", true)]
  {
    var s0 := LoggedInAgain(id);
    s := s0.(m := s0.m.(entries := map[id := Entry(Some(7), 0, Some(1), "z", "u", true)]),
             published := s0.published["z" := ByHandler(0)], reauths := [Reauth(0, "z", Deaf)]);
    assert s0.m.entries[id := Entry(Some(7), 0, Some(1), "z", "u", true)] == s.m.entries;
    assert s0.reauths + [Reauth(0, "z", Deaf)] == s.reauths;
    ReachStep(s0, Reauthorize(0, "z", "u"), s);
  }

  lemma ReauthorizedLookedUp(id: string) returns (s: Sys)
    ensures Reachable(s) && s.callbacks == [Callback(id, "z", 1)] && s.letters == map[]
    ensures |s.flows| == 2 && s.flows[1].expected == "y"
    ensures s.m.entries == map[id := Entry(Some(7), 0, Some(1), "z", "u", true)]
  {
    var s0 := OwnStateCanBeLost(id);
    s := s0.(callbacks := [Callback(id, "z", 1)]);
    assert s0.callbacks + [Callback(id, "z", 1)] == s.callbacks;
    ReachStep(s0, Lookup("z", id), s);
  }

  lemma OwnCallbackMatched(id: string) returns (s: Sys)
    ensures Reachable(s) && s.letters == map[] && s.callbacks == [Callback(id, "y", 1)] && s.reauths == []
    ensures s.flows == [Flow(id, Finished, "x"), Flow(id, Waiting, "y")] && s.installed == {0}
    ensures s.m.entries == map[id := Entry(Some(7), 0, Some(1), "y", "u", true)]
    ensures s.published == map["x" := ByFlow(0), "y" := ByFlow(1)]
  {
    var s0 := LoggedInAgain(id);
    s := s0.(callbacks := [Callback(id, "y", 1)]);
    assert s0.callbacks + [Callback(id, "y", 1)] == s.callbacks;
    ReachStep(s0, Lookup("y", id), s);
  }

  /** The code for the URL a login in progress has shown has arrived. */
  lemma OwnCodeArrived(id: string) returns (s: Sys)
    ensures Reachable(s) && s.letters == map[1 := Letter("y", 1)] && s.callbacks == [] && s.reauths == []
    ensures s.flows == [Flow(id, Finished, "x"), Flow(id, Waiting, "y")] && s.installed == {0}
    ensures s.m.entries == map[id := Entry(Some(7), 0, Some(1), "y", "u", true)]
    ensures s.published == map["x" := ByFlow(0), "y" := ByFlow(1)]
  {
    var s1 := OwnCallbackMatched(id);
    s := s1.(callbacks := [], letters := map[1 := Letter("y", 1)]);
    assert s1.callbacks[..0] + s1.callbacks[1..] == [] && s1.letters[1 := Letter("y", 1)] == s.letters;
    ReachStep(s1, Send(0), s);
  }

  lemma ReauthorizationListens(id: string) returns (s: Sys)
    ensures Reachable(s) && s.letters == map[1 := Letter("y", 1)]
    ensures s.flows == [Flow(id, Finished, "x"), Flow(id, Waiting, "y")]
    ensures s.reauths == [Reauth(0, "z", Listening(Some(1)))]
  {
    var s0 := OwnCodeArrived(id);
    var s1 := s0.(m := s0.m.(entries := map[id := Entry(Some(7), 0, Some(1), "z", "u", true)]),
                  published := s0.published["z" := ByHandler(0)], reauths := [Reauth(0, "z", Deaf)]);
    assert s0.m.entries[id := Entry(Some(7), 0, Some(1), "z", "u", true)] == s1.m.entries;
    assert s0.reauths + [Reauth(0, "z", Deaf)] == s1.reauths;
    ReachStep(s0, Reauthorize(0, "z", "u"), s1);
    s := s1.(reauths := [Reauth(0, "z", Listening(Some(1)))]);
    assert s1.reauths[0 := Reauth(0, "z", Listening(Some(1)))] == s.reauths;
    ReachStep(s1, Listen(0), s);
  }

  /** A re-authorization can also take the code meant for the login in progress, which
      is then left waiting with nothing in its channel. */
  lemma OwnCodeCanBeTaken(id: string) returns (s: Sys, s': Sys)
    ensures Reachable(s) && s.flows == [Flow(id, Finished, "x"), Flow(id, Waiting, "y")] && s.letters == map[1 := Letter("y", 1)]
    ensures Next(s, ReceiveCode(1)).Some? && Next(s, Take(0)) == Some(s')
    ensures s'.flows == s.flows && s'.letters == map[] && s'.reauths == [] && Next(s', ReceiveCode(1)).None?
  {
    s := ReauthorizationListens(id);
    FlowsAreKnown(s, 1);
    s' := s.(letters := map[], reauths := []);
    assert s.letters - {1} == map[] && s.reauths[..0] + s.reauths[1..] == [];
  }

  lemma FlowsAreKnown(s: Sys, f: nat)
    requires Reachable(s) && f < |s.flows|
    ensures s.flows[f].id in s.m.entries
  {
    ReachableInv(s);
    assert FlowFits(s, f);
  }

  /** And the login in progress can then be sent the code of the re-authorization,
      by a callback that found that very login. */
  lemma ReauthorizedCodeCanArrive(id: string) returns (s: Sys)
    ensures Reachable(s) && |s.flows| == 2 && 1 in s.letters && s.letters[1].seen == 1
    ensures s.letters[1].state != s.flows[1].expected
  {
    var s1 := ReauthorizedLookedUp(id);
    var letter := Letter("z", 1);
    s := s1.(callbacks := [], letters := map[1 := letter]);
    assert s1.callbacks[..0] + s1.callbacks[1..] == [] && s1.letters[1 := letter] == s.letters;
    assert Next(s1, Send(0)) == Some(s);
    ReachStep(s1, Send(0), s);
  }
}
