/** Which limits, namespaces and servers a configuration may hold, and what that
    gives the rest of the gateway. */
module Config {

  import opened Prelude
  import opened Naming
  import T = ToolTable
  import A = Agreement
  import O = OAuth

  datatype NsConfig = NsConfig(name: string, servers: seq<string>, maxConcurrent: int, discovery: string, pinned: seq<string>)

  /** A server is remote when it has a URL; arguments, environment and headers
      count by whether there are any. */
  datatype ServerConfig = ServerConfig(
    maxConcurrent: int, callTimeout: int, stderrLevel: string, url: string, command: string,
    hasArgs: bool, hasEnv: bool, hasHeaders: bool, oauth: bool, clientId: string, secretEnv: string)

  datatype Limits = Limits(maxConcurrent: int, perNamespace: int, perServer: int, callTimeout: int)

  datatype Breaker = Breaker(failures: int, cooldown: int)

  datatype Config = Config(limits: Limits, breaker: Breaker, namespaces: seq<NsConfig>, servers: map<string, ServerConfig>)

  /** What validation asks of the host: whether a URL is an absolute http(s) one
      with a host, and which commands can be found and executed. */
  datatype Host = Host(
    absoluteUrl: string -> bool, absolutePath: string -> bool, look: string -> Option<string>, executable: string -> bool)

  datatype Problem =
    | NegativeLimits
    | NegativeBreaker
    | NoNamespaces
    | BadNamespaceName(namespace: string)
    | DuplicateNamespace(namespace: string)
    | NegativeConcurrency(namespace: string)
    | BadDiscovery(namespace: string)
    | PinsNeedHybrid(namespace: string)
    | BadPin(namespace: string, pin: string)
    | ForeignPin(namespace: string, pin: string)
    | DuplicatePin(namespace: string, pin: string)
    | NoServers(namespace: string)
    | UnknownServer(namespace: string, server: string)
    | BadServerName(server: string)
    | NegativeLimit(server: string)
    | BadStderrLevel(server: string)
    | MixedTransports(server: string)
    | BadUrl(server: string)
    | ClientNeedsOAuth(server: string)
    | SecretNeedsClient(server: string)
    | OAuthNeedsUrl(server: string)
    | HeadersNeedUrl(server: string)
    | NoTransport(server: string)
    | CommandNotFound(server: string)
    | NotExecutable(server: string)

  const HYBRID: string := "hybrid"

  predicate Mode(discovery: string) {
    discovery == "" || discovery == "full" || discovery == "connector" || discovery == "search" || discovery == HYBRID
  }

  function When(cond: bool, p: Problem): seq<Problem> {
    if cond then [p] else []
  }

  function NsHead(ns: NsConfig, seen: bool): seq<Problem> {
    When(!NameRule(ns.name), BadNamespaceName(ns.name)) +
    When(seen, DuplicateNamespace(ns.name)) +
    When(ns.maxConcurrent < 0, NegativeConcurrency(ns.name)) +
    When(!Mode(ns.discovery), BadDiscovery(ns.name)) +
    When(ns.pinned != [] && ns.discovery != HYBRID, PinsNeedHybrid(ns.name))
  }

  function PinProblems(ns: NsConfig, pin: string, seen: bool): seq<Problem> {
    (match Cut(pin)
     case None => [BadPin(ns.name, pin)]
     case Some(parts) =>
       if parts.1 == "" then [BadPin(ns.name, pin)]
       else When(parts.0 !in ns.servers, ForeignPin(ns.name, pin))) +
    When(seen, DuplicatePin(ns.name, pin))
  }

  /** The problems of the first `n` pins. */
  function PinsProblems(ns: NsConfig, n: nat): seq<Problem>
    requires n <= |ns.pinned|
  {
    if n == 0 then []
    else PinsProblems(ns, n - 1) + PinProblems(ns, ns.pinned[n - 1], ns.pinned[n - 1] in ns.pinned[..n - 1])
  }

  /** The problems of the first `n` server references. */
  function RefProblems(c: Config, ns: NsConfig, n: nat): seq<Problem>
    requires n <= |ns.servers|
  {
    if n == 0 then []
    else RefProblems(c, ns, n - 1) + When(ns.servers[n - 1] !in c.servers, UnknownServer(ns.name, ns.servers[n - 1]))
  }

  function NsProblems(c: Config, ns: NsConfig, seen: bool): seq<Problem> {
    NsHead(ns, seen) + PinsProblems(ns, |ns.pinned|) +
    When(ns.servers == [], NoServers(ns.name)) + RefProblems(c, ns, |ns.servers|)
  }

  /** The names of the first `n` namespaces. */
  function NamesBefore(c: Config, n: nat): set<string>
    requires n <= |c.namespaces|
  {
    if n == 0 then {} else NamesBefore(c, n - 1) + {c.namespaces[n - 1].name}
  }

  /** The first `n` parts of a list in order. */
  function Flat<T>(part: nat -> seq<T>, n: nat): seq<T> {
    if n == 0 then [] else Flat(part, n - 1) + part(n - 1)
  }

  function NthProblems(c: Config): nat -> seq<Problem> {
    (i: nat) => if i < |c.namespaces| then NsProblems(c, c.namespaces[i], c.namespaces[i].name in NamesBefore(c, i)) else []
  }

  /** The problems of the first `n` namespaces. */
  function NamespacesProblems(c: Config, n: nat): seq<Problem>
    requires n <= |c.namespaces|
  {
    Flat(NthProblems(c), n)
  }

  predicate StderrLevel(level: string) {
    level == "" || level == "debug" || level == "info" || level == "warn" || level == "error" || level == "discard"
  }

  function RemoteProblems(h: Host, name: string, srv: ServerConfig): seq<Problem> {
    When(srv.command != "" || srv.hasArgs || srv.hasEnv, MixedTransports(name)) +
    When(!h.absoluteUrl(srv.url), BadUrl(name)) +
    When(!srv.oauth && (srv.clientId != "" || srv.secretEnv != ""), ClientNeedsOAuth(name)) +
    When(srv.oauth && srv.secretEnv != "" && srv.clientId == "", SecretNeedsClient(name))
  }

  /** The executable a command stands for: itself, or what the path search finds. */
  function Resolved(h: Host, command: string): Option<string> {
    if h.absolutePath(command) then Some(command) else h.look(command)
  }

  function CommandProblems(h: Host, name: string, srv: ServerConfig): seq<Problem> {
    if srv.command == "" then [NoTransport(name)]
    else match Resolved(h, srv.command)
      case None => [CommandNotFound(name)]
      case Some(path) => When(!h.executable(path), NotExecutable(name))
  }

  function LocalProblems(h: Host, name: string, srv: ServerConfig): seq<Problem> {
    When(srv.oauth, OAuthNeedsUrl(name)) + When(srv.hasHeaders, HeadersNeedUrl(name)) + CommandProblems(h, name, srv)
  }

  function ServerHead(name: string, srv: ServerConfig): seq<Problem> {
    When(!NameRule(name), BadServerName(name)) +
    When(srv.maxConcurrent < 0 || srv.callTimeout < 0, NegativeLimit(name)) +
    When(!StderrLevel(srv.stderrLevel), BadStderrLevel(name))
  }

  function ServerProblems(h: Host, name: string, srv: ServerConfig): seq<Problem> {
    ServerHead(name, srv) + if srv.url != "" then RemoteProblems(h, name, srv) else LocalProblems(h, name, srv)
  }

  /** The configuration validation leaves behind: found commands are pinned. */
  function Pinned(h: Host, srv: ServerConfig): ServerConfig {
    if srv.url == "" && srv.command != "" && Resolved(h, srv.command).Some?
    then srv.(command := Resolved(h, srv.command).value) else srv
  }

  // --------------------------------------------------------------- validation

  method CheckPin(ns: NsConfig, name: string, seen: bool) returns (errs: seq<Problem>)
    ensures errs == PinProblems(ns, name, seen)
  {
    errs := [];
    var parts := Cut(name);
    if parts.None? || parts.value.1 == "" {
      errs := [BadPin(ns.name, name)];
    } else {
      var found := false;
      for j := 0 to |ns.servers|
        invariant !found && parts.value.0 !in ns.servers[..j]
      {
        if ns.servers[j] == parts.value.0 {
          found := true;
          break;
        }
      }
      assert ns.servers[..|ns.servers|] == ns.servers;
      if !found {
        errs := [ForeignPin(ns.name, name)];
      }
    }
    errs := Note(errs, seen, DuplicatePin(ns.name, name));
  }

  method CheckPins(ns: NsConfig) returns (errs: seq<Problem>)
    ensures errs == PinsProblems(ns, |ns.pinned|)
  {
    errs := [];
    var pins: set<string> := {};
    for k := 0 to |ns.pinned|
      invariant errs == PinsProblems(ns, k)
      invariant forall p :: p in pins <==> p in ns.pinned[..k]
    {
      var pinErrs := CheckPin(ns, ns.pinned[k], ns.pinned[k] in pins);
      errs := errs + pinErrs;
      pins := pins + {ns.pinned[k]};
    }
  }

  method Note(errs: seq<Problem>, cond: bool, p: Problem) returns (r: seq<Problem>)
    ensures r == errs + When(cond, p)
  {
    r := errs;
    if cond {
      r := r + [p];
    }
  }

  method CheckHead(ns: NsConfig, seen: bool) returns (errs: seq<Problem>)
    ensures errs == NsHead(ns, seen)
  {
    errs := Note([], !NameRule(ns.name), BadNamespaceName(ns.name));
    errs := Note(errs, seen, DuplicateNamespace(ns.name));
    errs := Note(errs, ns.maxConcurrent < 0, NegativeConcurrency(ns.name));
    errs := Note(errs, !Mode(ns.discovery), BadDiscovery(ns.name));
    errs := Note(errs, |ns.pinned| > 0 && ns.discovery != HYBRID, PinsNeedHybrid(ns.name));
  }

  method CheckRefs(c: Config, ns: NsConfig) returns (errs: seq<Problem>)
    ensures errs == RefProblems(c, ns, |ns.servers|)
  {
    errs := [];
    for k := 0 to |ns.servers|
      invariant errs == RefProblems(c, ns, k)
    {
      errs := Note(errs, ns.servers[k] !in c.servers, UnknownServer(ns.name, ns.servers[k]));
    }
  }

  method CheckNamespace(c: Config, ns: NsConfig, seen: bool) returns (errs: seq<Problem>)
    ensures errs == NsProblems(c, ns, seen)
  {
    errs := CheckHead(ns, seen);
    var pinErrs := CheckPins(ns);
    errs := Note(errs + pinErrs, |ns.servers| == 0, NoServers(ns.name));
    var refErrs := CheckRefs(c, ns);
    errs := errs + refErrs;
  }

  method CheckRemote(h: Host, name: string, srv: ServerConfig) returns (errs: seq<Problem>)
    ensures errs == RemoteProblems(h, name, srv)
  {
    errs := Note([], srv.command != "" || srv.hasArgs || srv.hasEnv, MixedTransports(name));
    errs := Note(errs, !h.absoluteUrl(srv.url), BadUrl(name));
    errs := Note(errs, !srv.oauth && (srv.clientId != "" || srv.secretEnv != ""), ClientNeedsOAuth(name));
    errs := Note(errs, srv.oauth && srv.secretEnv != "" && srv.clientId == "", SecretNeedsClient(name));
  }

  method CheckCommand(h: Host, name: string, srv: ServerConfig) returns (errs: seq<Problem>, command: string)
    ensures errs == CommandProblems(h, name, srv)
    ensures command == if srv.command != "" && Resolved(h, srv.command).Some? then Resolved(h, srv.command).value else srv.command
  {
    command := srv.command;
    if command == "" {
      return [NoTransport(name)], command;
    }
    if !h.absolutePath(command) {
      var found := h.look(command);
      if found.None? {
        return [CommandNotFound(name)], command;
      }
      command := found.value;
    }
    errs := Note([], !h.executable(command), NotExecutable(name));
  }

  method CheckLocal(h: Host, name: string, srv: ServerConfig) returns (errs: seq<Problem>, command: string)
    ensures errs == LocalProblems(h, name, srv)
    ensures command == if srv.command != "" && Resolved(h, srv.command).Some? then Resolved(h, srv.command).value else srv.command
  {
    var last;
    errs := Note([], srv.oauth, OAuthNeedsUrl(name));
    errs := Note(errs, srv.hasHeaders, HeadersNeedUrl(name));
    last, command := CheckCommand(h, name, srv);
    errs := errs + last;
  }

  method CheckServerHead(name: string, srv: ServerConfig) returns (errs: seq<Problem>)
    ensures errs == ServerHead(name, srv)
  {
    errs := Note([], !NameRule(name), BadServerName(name));
    errs := Note(errs, srv.maxConcurrent < 0 || srv.callTimeout < 0, NegativeLimit(name));
    errs := Note(errs, !StderrLevel(srv.stderrLevel), BadStderrLevel(name));
  }

  method CheckServer(h: Host, name: string, srv: ServerConfig) returns (errs: seq<Problem>, srv': ServerConfig)
    ensures errs == ServerProblems(h, name, srv) && srv' == Pinned(h, srv)
  {
    errs := CheckServerHead(name, srv);
    if srv.url != "" {
      var more := CheckRemote(h, name, srv);
      return errs + more, srv;
    }
    var more, command := CheckLocal(h, name, srv);
    return errs + more, srv.(command := command);
  }

  ghost predicate ServerProblem(h: Host, c: Config, checked: set<string>, p: Problem) {
    exists name :: name in checked && name in c.servers && p in ServerProblems(h, name, c.servers[name])
  }

  method ReportServer(h: Host, c: Config, name: string, errs: seq<Problem>, ghost checked: set<string>)
    returns (errs': seq<Problem>, srv': ServerConfig)
    requires name in c.servers && forall p :: p in errs <==> ServerProblem(h, c, checked, p)
    ensures forall p :: p in errs' <==> ServerProblem(h, c, checked + {name}, p)
    ensures srv' == Pinned(h, c.servers[name])
  {
    var found;
    found, srv' := CheckServer(h, name, c.servers[name]);
    OneMoreServer(h, c, checked, name);
    errs' := errs + found;
  }

  ghost predicate PinnedSoFar(h: Host, c: Config, checked: set<string>, servers: map<string, ServerConfig>) {
    && servers.Keys == c.servers.Keys
    && forall s :: s in servers ==> servers[s] == if s in checked then Pinned(h, c.servers[s]) else c.servers[s]
  }

  lemma PinOne(h: Host, c: Config, checked: set<string>, servers: map<string, ServerConfig>, name: string)
    requires PinnedSoFar(h, c, checked, servers) && name in c.servers
    ensures PinnedSoFar(h, c, checked + {name}, servers[name := Pinned(h, c.servers[name])])
  {
  }

  /** Checks the servers in whatever order the map gives them. */
  method CheckServers(h: Host, c: Config) returns (errs: seq<Problem>, servers: map<string, ServerConfig>)
    ensures forall p :: p in errs <==> ServerProblem(h, c, c.servers.Keys, p)
    ensures servers.Keys == c.servers.Keys && forall s :: s in servers ==> servers[s] == Pinned(h, c.servers[s])
  {
    errs, servers := [], c.servers;
    var left := c.servers.Keys;
    while left != {}
      invariant left <= c.servers.Keys
      invariant forall p :: p in errs <==> ServerProblem(h, c, c.servers.Keys - left, p)
      invariant PinnedSoFar(h, c, c.servers.Keys - left, servers)
      decreases left
    {
      var name :| name in left;
      var srv;
      errs, srv := ReportServer(h, c, name, errs, c.servers.Keys - left);
      PinOne(h, c, c.servers.Keys - left, servers, name);
      servers := servers[name := srv];
      TakeOne(c.servers.Keys, left, name);
      left := left - {name};
    }
    assert c.servers.Keys - {} == c.servers.Keys;
  }

  lemma TakeOne(all: set<string>, left: set<string>, name: string)
    requires name in left && left <= all
    ensures all - left + {name} == all - (left - {name})
  {
  }

  lemma OneMoreServer(h: Host, c: Config, checked: set<string>, name: string)
    requires name in c.servers
    ensures forall p :: ServerProblem(h, c, checked + {name}, p) <==>
                        ServerProblem(h, c, checked, p) || p in ServerProblems(h, name, c.servers[name])
  {
    forall p
      ensures ServerProblem(h, c, checked + {name}, p) <==>
              ServerProblem(h, c, checked, p) || p in ServerProblems(h, name, c.servers[name])
    {
      if p in ServerProblems(h, name, c.servers[name]) {
        assert name in checked + {name};
      }
    }
  }

  predicate NonNegative(l: Limits) {
    l.maxConcurrent >= 0 && l.perNamespace >= 0 && l.perServer >= 0 && l.callTimeout >= 0
  }

  function GlobalProblems(c: Config): seq<Problem> {
    When(!NonNegative(c.limits), NegativeLimits) +
    When(c.breaker.failures < 0 || c.breaker.cooldown < 0, NegativeBreaker) +
    When(c.namespaces == [], NoNamespaces)
  }

  /** The problems validation is to report. */
  ghost predicate Reported(h: Host, c: Config, p: Problem) {
    || p in GlobalProblems(c)
    || p in NamespacesProblems(c, |c.namespaces|)
    || ServerProblem(h, c, c.servers.Keys, p)
  }

  method CheckNamespaceAt(c: Config, k: nat, seen: set<string>) returns (errs: seq<Problem>)
    requires k < |c.namespaces| && seen == NamesBefore(c, k)
    ensures NamespacesProblems(c, k + 1) == NamespacesProblems(c, k) + errs
  {
    errs := CheckNamespace(c, c.namespaces[k], c.namespaces[k].name in seen);
  }

  method CheckNamespaces(c: Config) returns (errs: seq<Problem>)
    ensures errs == NamespacesProblems(c, |c.namespaces|)
  {
    errs := [];
    var seen: set<string> := {};
    for k := 0 to |c.namespaces|
      invariant errs == NamespacesProblems(c, k)
      invariant seen == NamesBefore(c, k)
    {
      var nsErrs := CheckNamespaceAt(c, k, seen);
      errs := errs + nsErrs;
      seen := seen + {c.namespaces[k].name};
    }
  }

  /** Reports every problem; the configuration is accepted exactly when there is
      none. Commands found in the path are pinned in what is handed on. */
  method Validate(h: Host, c: Config) returns (errs: seq<Problem>, c': Config)
    ensures forall p :: p in errs <==> Reported(h, c, p)
    ensures errs == [] <==> Accepted(h, c)
    ensures c' == c.(servers := c'.servers) && c'.servers.Keys == c.servers.Keys
    ensures forall s :: s in c.servers ==> c'.servers[s] == Pinned(h, c.servers[s])
  {
    errs := Note([], !NonNegative(c.limits), NegativeLimits);
    errs := Note(errs, c.breaker.failures < 0 || c.breaker.cooldown < 0, NegativeBreaker);
    errs := Note(errs, |c.namespaces| == 0, NoNamespaces);
    var nsErrs := CheckNamespaces(c);
    var serverErrs, servers := CheckServers(h, c);
    errs := errs + nsErrs + serverErrs;
    c' := c.(servers := servers);
    NoMembers(errs);
    AcceptedIff(h, c);
  }

  // ------------------------------------------------------------- what passes

  /** A pin names a non-empty tool of a server of the namespace. */
  predicate PinAccepted(ns: NsConfig, pin: string) {
    Cut(pin).Some? && Cut(pin).value.1 != "" && Cut(pin).value.0 in ns.servers
  }

  ghost predicate NsAccepted(c: Config, ns: NsConfig) {
    && NameRule(ns.name) && ns.maxConcurrent >= 0 && Mode(ns.discovery)
    && (ns.pinned != [] ==> ns.discovery == HYBRID)
    && (forall k :: 0 <= k < |ns.pinned| ==> PinAccepted(ns, ns.pinned[k]))
    && (forall j, k :: 0 <= j < k < |ns.pinned| ==> ns.pinned[j] != ns.pinned[k])
    && ns.servers != []
    && (forall k :: 0 <= k < |ns.servers| ==> ns.servers[k] in c.servers)
  }

  /** A remote server has an absolute URL and nothing of a command's; a local one
      has a command that can be found and executed and nothing of a URL's. */
  predicate ServerAccepted(h: Host, name: string, srv: ServerConfig) {
    && NameRule(name) && srv.maxConcurrent >= 0 && srv.callTimeout >= 0 && StderrLevel(srv.stderrLevel)
    && (srv.url != "" ==>
          && h.absoluteUrl(srv.url) && srv.command == "" && !srv.hasArgs && !srv.hasEnv
          && (srv.clientId != "" || srv.secretEnv != "" ==> srv.oauth)
          && (srv.secretEnv != "" ==> srv.clientId != ""))
    && (srv.url == "" ==>
          && !srv.oauth && !srv.hasHeaders && srv.command != ""
          && Resolved(h, srv.command).Some? && h.executable(Resolved(h, srv.command).value))
  }

  ghost predicate ServersAccepted(h: Host, c: Config) {
    forall s :: s in c.servers ==> ServerAccepted(h, s, c.servers[s])
  }

  ghost predicate Accepted(h: Host, c: Config) {
    && NonNegative(c.limits) && c.breaker.failures >= 0 && c.breaker.cooldown >= 0
    && c.namespaces != []
    && (forall i :: 0 <= i < |c.namespaces| ==> NsAccepted(c, c.namespaces[i]))
    && DistinctNames(c, |c.namespaces|)
    && ServersAccepted(h, c)
  }

  lemma ServerAcceptedIff(h: Host, name: string, srv: ServerConfig)
    ensures ServerProblems(h, name, srv) == [] <==> ServerAccepted(h, name, srv)
  {
  }

  lemma {:induction false} PinsAcceptedIff(ns: NsConfig, n: nat)
    requires n <= |ns.pinned|
    ensures PinsProblems(ns, n) == [] <==>
            && (forall k :: 0 <= k < n ==> PinAccepted(ns, ns.pinned[k]))
            && (forall j, k :: 0 <= j < k < n ==> ns.pinned[j] != ns.pinned[k])
  {
    if n > 0 {
      PinsAcceptedIff(ns, n - 1);
      var pin := ns.pinned[n - 1];
      var seen := pin in ns.pinned[..n - 1];
      SeenIff(ns.pinned, n - 1);
      PinAcceptedIff(ns, pin, seen);
      ConcatEmpty(PinsProblems(ns, n - 1), PinProblems(ns, pin, seen));
    }
  }

  lemma SeenIff(pinned: seq<string>, k: nat)
    requires k < |pinned|
    ensures pinned[k] in pinned[..k] <==> exists j :: 0 <= j < k && pinned[j] == pinned[k]
  {
  }

  lemma PinAcceptedIff(ns: NsConfig, pin: string, seen: bool)
    ensures PinProblems(ns, pin, seen) == [] <==> PinAccepted(ns, pin) && !seen
  {
  }

  lemma {:induction false} RefsAcceptedIff(c: Config, ns: NsConfig, n: nat)
    requires n <= |ns.servers|
    ensures RefProblems(c, ns, n) == [] <==> forall k :: 0 <= k < n ==> ns.servers[k] in c.servers
  {
    if n > 0 {
      RefsAcceptedIff(c, ns, n - 1);
    }
  }

  lemma NsAcceptedIff(c: Config, ns: NsConfig, seen: bool)
    ensures NsProblems(c, ns, seen) == [] <==> NsAccepted(c, ns) && !seen
  {
    PinsAcceptedIff(ns, |ns.pinned|);
    RefsAcceptedIff(c, ns, |ns.servers|);
  }

  ghost predicate DistinctNames(c: Config, n: nat)
    requires n <= |c.namespaces|
  {
    forall i, j :: 0 <= i < j < n ==> c.namespaces[i].name != c.namespaces[j].name
  }

  lemma {:induction false} NameBeforeIff(c: Config, n: nat, name: string)
    requires n <= |c.namespaces|
    ensures name in NamesBefore(c, n) <==> exists j :: 0 <= j < n && c.namespaces[j].name == name
  {
    if n > 0 {
      NameBeforeIff(c, n - 1, name);
    }
  }

  lemma ConcatEmpty<X>(a: seq<X>, b: seq<X>)
    ensures a + b == [] <==> a == [] && b == []
  {
    assert |a + b| == |a| + |b|;
  }

  lemma {:induction false} FlatEmpty<T>(part: nat -> seq<T>, n: nat)
    ensures Flat(part, n) == [] <==> forall k: nat :: k < n ==> part(k) == []
  {
    if n > 0 {
      FlatEmpty(part, n - 1);
      ConcatEmpty(Flat(part, n - 1), part(n - 1));
    }
  }

  lemma NthAcceptedIff(c: Config, i: nat)
    requires i < |c.namespaces|
    ensures NthProblems(c)(i) == [] <==>
            NsAccepted(c, c.namespaces[i]) && forall j :: 0 <= j < i ==> c.namespaces[j].name != c.namespaces[i].name
  {
    var ns := c.namespaces[i];
    NsAcceptedIff(c, ns, ns.name in NamesBefore(c, i));
    NameBeforeIff(c, i, ns.name);
  }

  lemma NamespacesAcceptedIff(c: Config)
    ensures NamespacesProblems(c, |c.namespaces|) == [] <==>
            (forall i :: 0 <= i < |c.namespaces| ==> NsAccepted(c, c.namespaces[i])) && DistinctNames(c, |c.namespaces|)
  {
    FlatEmpty(NthProblems(c), |c.namespaces|);
    forall i: nat | i < |c.namespaces|
      ensures NthProblems(c)(i) == [] <==>
              NsAccepted(c, c.namespaces[i]) && forall j :: 0 <= j < i ==> c.namespaces[j].name != c.namespaces[i].name
    {
      NthAcceptedIff(c, i);
    }
  }

  lemma ServersAcceptedIff(h: Host, c: Config)
    ensures (forall p :: !ServerProblem(h, c, c.servers.Keys, p)) <==> ServersAccepted(h, c)
  {
    forall s | s in c.servers
      ensures (forall p :: p !in ServerProblems(h, s, c.servers[s])) <==> ServerAccepted(h, s, c.servers[s])
    {
      NoMembers(ServerProblems(h, s, c.servers[s]));
      ServerAcceptedIff(h, s, c.servers[s]);
    }
    if forall p :: !ServerProblem(h, c, c.servers.Keys, p) {
      forall s, p | s in c.servers ensures p !in ServerProblems(h, s, c.servers[s]) {
        assert !ServerProblem(h, c, c.servers.Keys, p);
      }
    }
  }

  lemma NothingReported(h: Host, c: Config)
    requires forall p :: !Reported(h, c, p)
    ensures GlobalProblems(c) == [] && NamespacesProblems(c, |c.namespaces|) == []
    ensures forall p :: !ServerProblem(h, c, c.servers.Keys, p)
  {
    NoMembers(GlobalProblems(c));
    NoMembers(NamespacesProblems(c, |c.namespaces|));
    forall p
      ensures p !in GlobalProblems(c) && p !in NamespacesProblems(c, |c.namespaces|)
      ensures !ServerProblem(h, c, c.servers.Keys, p)
    {
      assert !Reported(h, c, p);
    }
  }

  lemma AcceptedIff(h: Host, c: Config)
    ensures (forall p :: !Reported(h, c, p)) <==> Accepted(h, c)
  {
    NamespacesAcceptedIff(c);
    ServersAcceptedIff(h, c);
    if forall p :: !Reported(h, c, p) {
      NothingReported(h, c);
    }
  }

  // ------------------------------------------------- what the gateway relies on

  /** The supervisor's spec IDs of one namespace, in order. */
  function NsIds(ns: NsConfig): (r: seq<string>)
    ensures |r| == |ns.servers| && forall k :: 0 <= k < |r| ==> r[k] == UpstreamId(ns.name, ns.servers[k])
  {
    seq(|ns.servers|, k requires 0 <= k < |ns.servers| => UpstreamId(ns.name, ns.servers[k]))
  }

  function SpecIds(namespaces: seq<NsConfig>): seq<string> {
    if namespaces == [] then []
    else SpecIds(namespaces[..|namespaces| - 1]) + NsIds(namespaces[|namespaces| - 1])
  }

  predicate Distinct(s: seq<string>) {
    forall i, j :: 0 <= i < j < |s| ==> s[i] != s[j]
  }

  lemma {:induction false} SpecIdFrom(namespaces: seq<NsConfig>, id: string)
    requires id in SpecIds(namespaces)
    ensures exists i, s :: 0 <= i < |namespaces| && s in namespaces[i].servers && id == UpstreamId(namespaces[i].name, s)
  {
    var n := |namespaces| - 1;
    var last := namespaces[n];
    if id in SpecIds(namespaces[..n]) {
      SpecIdFrom(namespaces[..n], id);
    } else {
      var k :| 0 <= k < |last.servers| && NsIds(last)[k] == id;
      assert last.servers[k] in last.servers;
    }
  }

  lemma NsIdsDistinctIff(ns: NsConfig)
    ensures Distinct(NsIds(ns)) <==> Distinct(ns.servers)
  {
    forall j, k | 0 <= j < k < |ns.servers| && UpstreamId(ns.name, ns.servers[j]) == UpstreamId(ns.name, ns.servers[k])
      ensures ns.servers[j] == ns.servers[k]
    {
      var n := |ns.name| + 1;
      assert UpstreamId(ns.name, ns.servers[j])[n..] == ns.servers[j];
      assert UpstreamId(ns.name, ns.servers[k])[n..] == ns.servers[k];
    }
    assert Distinct(NsIds(ns)) ==> forall j, k :: 0 <= j < k < |ns.servers| ==> NsIds(ns)[j] != NsIds(ns)[k];
  }

  lemma DistinctConcat(a: seq<string>, b: seq<string>)
    ensures Distinct(a + b) <==> Distinct(a) && Distinct(b) && forall t :: t in a ==> t !in b
  {
    var c := a + b;
    assert forall i :: 0 <= i < |a| ==> a[i] == c[i];
    assert forall i :: 0 <= i < |b| ==> b[i] == c[|a| + i];
    if Distinct(c) {
      forall t | t in a ensures t !in b {
        var i :| 0 <= i < |a| && a[i] == t;
        assert c[i] == t;
      }
    }
    if Distinct(a) && Distinct(b) && forall t :: t in a ==> t !in b {
      forall i, j | 0 <= i < j < |c| ensures c[i] != c[j] {
        if i < |a| <= j {
          assert a[i] in a && b[j - |a|] in b;
        }
      }
    }
  }

  /** A namespace's IDs are its own. */
  lemma OwnIds(namespaces: seq<NsConfig>, ns: NsConfig)
    requires NameRule(ns.name)
    requires forall i :: 0 <= i < |namespaces| ==> NameRule(namespaces[i].name) && namespaces[i].name != ns.name
    ensures forall id :: id in SpecIds(namespaces) ==> id !in NsIds(ns)
  {
    forall id | id in SpecIds(namespaces) ensures id !in NsIds(ns) {
      SpecIdFrom(namespaces, id);
      var i, s :| 0 <= i < |namespaces| && s in namespaces[i].servers && id == UpstreamId(namespaces[i].name, s);
      if k :| 0 <= k < |ns.servers| && NsIds(ns)[k] == id {
        UpstreamIdInjective(namespaces[i].name, s, ns.name, ns.servers[k]);
      }
    }
  }

  lemma {:induction false} SpecIdsDistinctIff(namespaces: seq<NsConfig>)
    requires forall i :: 0 <= i < |namespaces| ==> NameRule(namespaces[i].name)
    requires forall i, j :: 0 <= i < j < |namespaces| ==> namespaces[i].name != namespaces[j].name
    ensures Distinct(SpecIds(namespaces)) <==> forall i :: 0 <= i < |namespaces| ==> Distinct(namespaces[i].servers)
  {
    if namespaces != [] {
      var n := |namespaces| - 1;
      var last := namespaces[n];
      SpecIdsDistinctIff(namespaces[..n]);
      NsIdsDistinctIff(last);
      DistinctConcat(SpecIds(namespaces[..n]), NsIds(last));
      OwnIds(namespaces[..n], last);
      assert forall i :: 0 <= i < n ==> namespaces[..n][i] == namespaces[i];
    }
  }

  /** An accepted configuration gives every upstream its own ID exactly when no
      namespace lists a server twice. */
  lemma IdsUniqueIff(h: Host, c: Config)
    requires Accepted(h, c)
    ensures Distinct(SpecIds(c.namespaces)) <==> forall i :: 0 <= i < |c.namespaces| ==> Distinct(c.namespaces[i].servers)
  {
    SpecIdsDistinctIff(c.namespaces);
  }

  /** The namespace as the gateway sees it. */
  function NamespaceOf(ns: NsConfig): T.Namespace {
    T.Namespace(ns.name, ns.servers,
                (match ns.discovery
                 case "connector" => T.Connector
                 case "search" => T.Search
                 case "hybrid" => T.Hybrid
                 case _ => T.Full),
                ns.pinned)
  }

  /** The settings stand for the modes, the empty one for the full listing. */
  lemma ModeOf(c: Config, ns: NsConfig)
    requires NsAccepted(c, ns)
    ensures NamespaceOf(ns).discovery ==
            (if ns.discovery == "connector" then T.Connector
             else if ns.discovery == "search" then T.Search
             else if ns.discovery == "hybrid" then T.Hybrid
             else T.Full)
    ensures ns.discovery in {"", "full", "connector", "search", "hybrid"}
    ensures NamespaceOf(ns).name == ns.name && NamespaceOf(ns).servers == ns.servers && NamespaceOf(ns).pinned == ns.pinned
  {
  }

  /** What validation leaves open of the conditions under which the native tool
      table is right: unambiguous names and no server listed twice. */
  lemma GoodNamespaceIff(h: Host, c: Config, i: nat)
    requires Accepted(h, c) && i < |c.namespaces| && c.namespaces[i].discovery in {"", "full", "hybrid"}
    ensures A.GoodNamespace(NamespaceOf(c.namespaces[i]), map n | n in T.MetaNames(NamespaceOf(c.namespaces[i])) :: T.Meta)
       <==> Distinct(c.namespaces[i].servers) && forall s :: s in c.namespaces[i].servers ==> Unambiguous(s)
  {
    var ns := c.namespaces[i];
    assert NsAccepted(c, ns);
    ModeOf(c, ns);
    T.MetaNamesHaveNoSeparator(NamespaceOf(ns));
    assert A.DistinctServers(ns.servers) <==> Distinct(ns.servers);
  }

  /** A published name of an accepted namespace's server can be pinned exactly
      when it cuts into a server of the namespace and a non-empty tool; for an
      unambiguous server that is every name but the empty tool's. */
  lemma PinnableIff(ns: NsConfig, server: string, tool: string)
    requires server in ns.servers && Unambiguous(server)
    ensures PinAccepted(ns, Prefixed(server, tool)) <==> tool != ""
  {
    CutInvertsPrefix(server, tool);
  }

  /** A server whose name holds a separator cannot have any of its tools pinned
      unless the part before that separator is a server too. */
  lemma AmbiguousPinIff(ns: NsConfig, head: string, rest: string, tool: string)
    requires Unambiguous(head)
    ensures var server := head + SEPARATOR + rest;
            PinAccepted(ns, Prefixed(server, tool)) <==> head in ns.servers
  {
    var server := head + SEPARATOR + rest;
    assert Prefixed(server, tool) == Prefixed(head, rest + SEPARATOR + tool);
    CutInvertsPrefix(head, rest + SEPARATOR + tool);
  }

  /** Every URL of an accepted configuration is absolute. Local servers are handed on
      with a command that was found and can be executed. */
  lemma AcceptedServersAreUsable(h: Host, c: Config, s: string)
    requires Accepted(h, c) && s in c.servers
    ensures c.servers[s].oauth ==> c.servers[s].url != ""
    ensures c.servers[s].url != "" ==> h.absoluteUrl(c.servers[s].url)
    ensures c.servers[s].url == "" ==> h.executable(Pinned(h, c.servers[s]).command)
  {
    assert ServerAccepted(h, s, c.servers[s]);
  }

  // ------------------------------------------------ the OAuth upstreams at startup

  /** An upstream that needs a login. */
  datatype Upstream = Upstream(id: string, url: string)

  /** The OAuth upstreams among the first `n` servers of a namespace. */
  function NsUpstreams(c: Config, ns: NsConfig, n: nat): seq<Upstream>
    requires n <= |ns.servers|
  {
    if n == 0 then []
    else
      var s := ns.servers[n - 1];
      NsUpstreams(c, ns, n - 1) +
      if s in c.servers && c.servers[s].oauth then [Upstream(UpstreamId(ns.name, s), c.servers[s].url)] else []
  }

  /** Those of the first `n` namespaces. */
  function Upstreams(c: Config, n: nat): seq<Upstream>
    requires n <= |c.namespaces|
  {
    if n == 0 then []
    else Upstreams(c, n - 1) + NsUpstreams(c, c.namespaces[n - 1], |c.namespaces[n - 1].servers|)
  }

  /** The IDs under which some URL makes no request; `requestable` says which URLs do. */
  function Malformed(ups: seq<Upstream>, requestable: string -> bool): set<string> {
    set u | u in ups && !requestable(u.url) :: u.id
  }

  /** Some namespace lists a server that needs a login; `id` is its upstream ID and
      `url` its URL. */
  ghost predicate NeedsLogin(c: Config, id: string, url: string) {
    exists i, s :: 0 <= i < |c.namespaces| && s in c.namespaces[i].servers && s in c.servers && c.servers[s].oauth
                   && id == c.namespaces[i].name + "/" + s && url == c.servers[s].url
  }

  /** A login manager whose entries are those of the configuration: one for every
      upstream that needs a login, which can do without a URL that makes a request
      nowhere. */
  ghost predicate BuiltFrom(c: Config, requestable: string -> bool, m: O.Mgr) {
    && O.Consistent(m) && O.NoLogins(m)
    && (forall id :: id in m.entries <==> exists url :: NeedsLogin(c, id, url))
    && (forall id :: id in m.entries ==>
          (m.entries[id].wellFormed <==> forall url :: NeedsLogin(c, id, url) ==> requestable(url)))
  }

  lemma {:induction false} NsUpstreamsIff(c: Config, ns: NsConfig, n: nat, u: Upstream)
    requires n <= |ns.servers|
    ensures u in NsUpstreams(c, ns, n) <==>
            exists k :: 0 <= k < n && ns.servers[k] in c.servers && c.servers[ns.servers[k]].oauth
                        && u.id == ns.name + "/" + ns.servers[k] && u.url == c.servers[ns.servers[k]].url
  {
    if n > 0 {
      NsUpstreamsIff(c, ns, n - 1, u);
    }
  }

  lemma {:induction false} UpstreamsIff(c: Config, n: nat, u: Upstream)
    requires n <= |c.namespaces|
    ensures u in Upstreams(c, n) <==>
            exists i :: 0 <= i < n && u in NsUpstreams(c, c.namespaces[i], |c.namespaces[i].servers|)
  {
    if n > 0 {
      UpstreamsIff(c, n - 1, u);
    }
  }

  lemma NeedsLoginIff(c: Config, id: string, url: string)
    ensures NeedsLogin(c, id, url) <==> Upstream(id, url) in Upstreams(c, |c.namespaces|)
  {
    var u := Upstream(id, url);
    UpstreamsIff(c, |c.namespaces|, u);
    forall i | 0 <= i < |c.namespaces|
      ensures u in NsUpstreams(c, c.namespaces[i], |c.namespaces[i].servers|) <==>
              exists s :: s in c.namespaces[i].servers && s in c.servers && c.servers[s].oauth
                          && id == c.namespaces[i].name + "/" + s && url == c.servers[s].url
    {
      var ns := c.namespaces[i];
      NsUpstreamsIff(c, ns, |ns.servers|, u);
      if s :| s in ns.servers && s in c.servers && c.servers[s].oauth && id == ns.name + "/" + s && url == c.servers[s].url {
        var k :| 0 <= k < |ns.servers| && ns.servers[k] == s;
      }
    }
  }

  /** Collects the OAuth upstreams in the order of the configuration. */
  method CollectUpstreams(c: Config) returns (ups: seq<Upstream>)
    ensures ups == Upstreams(c, |c.namespaces|)
  {
    ups := [];
    for i := 0 to |c.namespaces|
      invariant ups == Upstreams(c, i)
    {
      var ns := c.namespaces[i];
      ghost var before := ups;
      assert before + [] == before;
      for k := 0 to |ns.servers|
        invariant ups == before + NsUpstreams(c, ns, k)
      {
        var s := ns.servers[k];
        if s in c.servers && c.servers[s].oauth {
          AppendAssoc(before, NsUpstreams(c, ns, k), [Upstream(UpstreamId(ns.name, s), c.servers[s].url)]);
          ups := ups + [Upstream(UpstreamId(ns.name, s), c.servers[s].url)];
        } else {
          assert NsUpstreams(c, ns, k) + [] == NsUpstreams(c, ns, k);
        }
      }
    }
  }

  /** Builds the manager of a configuration that was accepted, whose IDs stand for one
      URL each. */
  method StartLogins(h: Host, c: Config, stored: map<string, nat>, requestable: string -> bool) returns (m: O.Manager)
    requires Accepted(h, c)
    ensures fresh(m) && BuiltFrom(c, requestable, m.Value())
  {
    var ups := CollectUpstreams(c);
    var ids := seq(|ups|, k requires 0 <= k < |ups| => ups[k].id);
    m := new O.Manager(ids, stored, Malformed(ups, requestable));
    EntriesAre(c, ups, ids, requestable);
  }

  lemma EntriesAre(c: Config, ups: seq<Upstream>, ids: seq<string>, requestable: string -> bool)
    requires ups == Upstreams(c, |c.namespaces|) && |ids| == |ups| && forall k :: 0 <= k < |ups| ==> ids[k] == ups[k].id
    ensures forall id :: id in ids <==> exists url :: NeedsLogin(c, id, url)
    ensures forall id :: id !in Malformed(ups, requestable) <==> forall url :: NeedsLogin(c, id, url) ==> requestable(url)
  {
    forall id, url ensures NeedsLogin(c, id, url) <==> Upstream(id, url) in ups {
      NeedsLoginIff(c, id, url);
    }
    forall id ensures id in ids <==> exists url :: NeedsLogin(c, id, url) {
      if k :| 0 <= k < |ids| && ids[k] == id {
        assert NeedsLogin(c, id, ups[k].url);
      }
      if url :| NeedsLogin(c, id, url) {
        var k :| 0 <= k < |ups| && ups[k] == Upstream(id, url);
        assert ids[k] == id;
      }
    }
    forall id ensures id !in Malformed(ups, requestable) <==> forall url :: NeedsLogin(c, id, url) ==> requestable(url) {
      if id in Malformed(ups, requestable) {
        var u :| u in ups && !requestable(u.url) && u.id == id;
        assert NeedsLogin(c, id, u.url);
      }
    }
  }

  /** In every run of the manager a configuration gives rise to, a login can get stuck
      for good exactly under the IDs whose URL makes no request. */
  lemma LoginsJamIff(h: Host, c: Config, requestable: string -> bool, s0: O.Sys, es: seq<O.Event>, id: string)
    requires Accepted(h, c)
    requires O.IsInit(s0) && BuiltFrom(c, requestable, s0.m) && O.Exec(s0, es).Some? && id in s0.m.entries
    ensures O.CanJam(O.Exec(s0, es).value, id) <==> exists url :: NeedsLogin(c, id, url) && !requestable(url)
  {
    O.RunCanJamIff(s0, es, id);
  }

  /** Where validation's absolute URLs all make requests, no login of an accepted
      configuration can get stuck. */
  lemma AcceptedLoginsNeverJam(h: Host, c: Config, requestable: string -> bool, s0: O.Sys, es: seq<O.Event>, id: string)
    requires Accepted(h, c) && forall url :: h.absoluteUrl(url) ==> requestable(url)
    requires O.IsInit(s0) && BuiltFrom(c, requestable, s0.m) && O.Exec(s0, es).Some? && id in s0.m.entries
    ensures !O.CanJam(O.Exec(s0, es).value, id)
  {
    LoginsJamIff(h, c, requestable, s0, es, id);
    forall url | NeedsLogin(c, id, url) ensures requestable(url) {
      var i, s :| 0 <= i < |c.namespaces| && s in c.namespaces[i].servers && s in c.servers && c.servers[s].oauth
                  && id == c.namespaces[i].name + "/" + s && url == c.servers[s].url;
      assert ServerAccepted(h, s, c.servers[s]);
    }
  }

  function Listing(servers: seq<string>, defined: map<string, ServerConfig>): Config {
    Config(Limits(0, 0, 0, 0), Breaker(0, 0), [NsConfig("n", servers, 0, "", [])], defined)
  }

  /** Validation accepts a server listed twice and two servers whose tools can
      collide; the upstream IDs then repeat. */
  lemma AcceptedYetUnsafe(h: Host, s: ServerConfig)
    requires ServerAccepted(h, "a", s) && ServerAccepted(h, "a_", s)
    ensures var twice := Listing(["a", "a"], map["a" := s]);
            Accepted(h, twice) && !Distinct(SpecIds(twice.namespaces))
    ensures var collide := Listing(["a", "a_"], map["a" := s, "a_" := s]);
            Accepted(h, collide) && Distinct(SpecIds(collide.namespaces)) && Prefixed("a", "_x") == Prefixed("a_", "x")
  {
    ListingAccepted(h, ["a", "a"], map["a" := s]);
    ListingAccepted(h, ["a", "a_"], map["a" := s, "a_" := s]);
    assert ["a", "a"][0] == ["a", "a"][1];
    PrefixingDoesNotRuleOutCollisions();
  }

  lemma ListingAccepted(h: Host, servers: seq<string>, defined: map<string, ServerConfig>)
    requires servers != [] && (forall s :: s in servers ==> s in defined)
    requires forall s :: s in defined ==> ServerAccepted(h, s, defined[s])
    ensures var c := Listing(servers, defined);
            Accepted(h, c) && (Distinct(SpecIds(c.namespaces)) <==> Distinct(servers))
  {
    var c := Listing(servers, defined);
    assert NsAccepted(c, c.namespaces[0]);
    IdsUniqueIff(h, c);
  }
}
