/** What each problem that validation reports says about the configuration. */
module ConfigProblems {

  import opened Prelude
  import opened Naming
  import opened Config

  /** One small letter or digit, then any number of these, `_` and `-`. */
  predicate Fine(name: string) {
    && name != ""
    && forall i :: 0 <= i < |name| ==>
         'a' <= name[i] <= 'z' || '0' <= name[i] <= '9' || (i > 0 && name[i] in {'_', '-'})
  }

  /** The pin is `server__tool`, cut at the first separator, with a tool that is not empty. */
  ghost predicate PinOf(pin: string, server: string, tool: string) {
    CutsInto(pin, server, tool) && tool != ""
  }

  /** The problem `p` is there to be found. */
  ghost predicate Wrong(h: Host, c: Config, p: Problem) {
    if OfServer(p) then p.server in c.servers && WrongServer(h, p.server, c.servers[p.server], p)
    else if OfNamespace(p) then
      exists i :: 0 <= i < |c.namespaces| && c.namespaces[i].name == p.namespace && WrongNamespace(c, c.namespaces[i], p)
    else if p.DuplicateNamespace? then
      exists i, j :: 0 <= i < j < |c.namespaces| && c.namespaces[i].name == p.namespace == c.namespaces[j].name
    else WrongGlobally(c, p)
  }

  predicate WrongGlobally(c: Config, p: Problem) {
    || (p.NegativeLimits? &&
          (c.limits.maxConcurrent < 0 || c.limits.perNamespace < 0 || c.limits.perServer < 0 || c.limits.callTimeout < 0))
    || (p.NegativeBreaker? && (c.breaker.failures < 0 || c.breaker.cooldown < 0))
    || (p.NoNamespaces? && c.namespaces == [])
  }

  predicate OfServer(p: Problem) {
    || p.BadServerName? || p.NegativeLimit? || p.BadStderrLevel? || p.MixedTransports? || p.BadUrl? || p.ClientNeedsOAuth?
    || p.SecretNeedsClient? || p.OAuthNeedsUrl? || p.HeadersNeedUrl? || p.NoTransport? || p.CommandNotFound? || p.NotExecutable?
  }

  predicate OfNamespace(p: Problem) {
    !OfServer(p) && !p.NegativeLimits? && !p.NegativeBreaker? && !p.NoNamespaces? && !p.DuplicateNamespace?
  }

  ghost predicate WrongNamespace(c: Config, ns: NsConfig, p: Problem)
    requires OfNamespace(p)
  {
    match p
    case BadNamespaceName(_) => !Fine(ns.name)
    case NegativeConcurrency(_) => ns.maxConcurrent < 0
    case BadDiscovery(_) => ns.discovery !in {"", "full", "connector", "search", "hybrid"}
    case PinsNeedHybrid(_) => ns.pinned != [] && ns.discovery != "hybrid"
    case BadPin(_, pin) => pin in ns.pinned && !exists server, tool :: PinOf(pin, server, tool)
    case ForeignPin(_, pin) => pin in ns.pinned && exists server, tool :: PinOf(pin, server, tool) && server !in ns.servers
    case DuplicatePin(_, pin) => exists j, k :: 0 <= j < k < |ns.pinned| && ns.pinned[j] == pin == ns.pinned[k]
    case NoServers(_) => ns.servers == []
    case UnknownServer(_, server) => server in ns.servers && server !in c.servers
    case _ => false
  }

  ghost predicate WrongServer(h: Host, name: string, srv: ServerConfig, p: Problem)
    requires OfServer(p)
  {
    var remote := srv.url != "";
    match p
    case BadServerName(_) => !Fine(name)
    case NegativeLimit(_) => srv.maxConcurrent < 0 || srv.callTimeout < 0
    case BadStderrLevel(_) => srv.stderrLevel !in {"", "debug", "info", "warn", "error", "discard"}
    case MixedTransports(_) => remote && (srv.command != "" || srv.hasArgs || srv.hasEnv)
    case BadUrl(_) => remote && !h.absoluteUrl(srv.url)
    case ClientNeedsOAuth(_) => remote && !srv.oauth && (srv.clientId != "" || srv.secretEnv != "")
    case SecretNeedsClient(_) => remote && srv.oauth && srv.secretEnv != "" && srv.clientId == ""
    case OAuthNeedsUrl(_) => !remote && srv.oauth
    case HeadersNeedUrl(_) => !remote && srv.hasHeaders
    case NoTransport(_) => !remote && srv.command == ""
    case CommandNotFound(_) => !remote && srv.command != "" && !h.absolutePath(srv.command) && h.look(srv.command) == None
    case NotExecutable(_) =>
      !remote && srv.command != "" &&
      (if h.absolutePath(srv.command) then !h.executable(srv.command)
       else exists path :: h.look(srv.command) == Some(path) && !h.executable(path))
    case _ => false
  }

  lemma FineIff(name: string)
    ensures NameRule(name) <==> Fine(name)
  {
  }

  lemma ServerProblemIff(h: Host, name: string, srv: ServerConfig, p: Problem)
    ensures p in ServerProblems(h, name, srv) <==> OfServer(p) && p.server == name && WrongServer(h, name, srv, p)
  {
    ServerParts(h, name, srv, p);
    ServerHeadIff(name, srv, p);
    RemoteProblemIff(h, name, srv, p);
    LocalProblemIff(h, name, srv, p);
    if OfServer(p) && p.server == name {
      if p.BadServerName? || p.NegativeLimit? || p.BadStderrLevel? {
        HeadKinds(h, name, srv, p);
      } else if p.MixedTransports? || p.BadUrl? || p.ClientNeedsOAuth? || p.SecretNeedsClient? {
        RemoteKinds(h, name, srv, p);
      } else {
        LocalKinds(h, name, srv, p);
      }
    }
  }

  lemma ServerParts(h: Host, name: string, srv: ServerConfig, p: Problem)
    ensures p in ServerProblems(h, name, srv) <==>
            p in ServerHead(name, srv) || (if srv.url != "" then p in RemoteProblems(h, name, srv) else p in LocalProblems(h, name, srv))
  {
  }

  lemma HeadKinds(h: Host, name: string, srv: ServerConfig, p: Problem)
    requires (p.BadServerName? || p.NegativeLimit? || p.BadStderrLevel?) && p.server == name
    ensures WrongServer(h, name, srv, p) <==> p in ServerHead(name, srv)
  {
    FineIff(name);
    ServerHeadIff(name, srv, p);
  }

  lemma RemoteKinds(h: Host, name: string, srv: ServerConfig, p: Problem)
    requires (p.MixedTransports? || p.BadUrl? || p.ClientNeedsOAuth? || p.SecretNeedsClient?) && p.server == name
    ensures WrongServer(h, name, srv, p) <==> srv.url != "" && p in RemoteProblems(h, name, srv)
  {
    RemoteProblemIff(h, name, srv, p);
  }

  lemma LocalKinds(h: Host, name: string, srv: ServerConfig, p: Problem)
    requires (p.OAuthNeedsUrl? || p.HeadersNeedUrl? || p.NoTransport? || p.CommandNotFound? || p.NotExecutable?) && p.server == name
    ensures WrongServer(h, name, srv, p) <==> srv.url == "" && p in LocalProblems(h, name, srv)
  {
    LocalProblemIff(h, name, srv, p);
  }

  lemma ServerHeadIff(name: string, srv: ServerConfig, p: Problem)
    ensures p in ServerHead(name, srv) <==>
            || (p == BadServerName(name) && !NameRule(name))
            || (p == NegativeLimit(name) && (srv.maxConcurrent < 0 || srv.callTimeout < 0))
            || (p == BadStderrLevel(name) && srv.stderrLevel !in {"", "debug", "info", "warn", "error", "discard"})
  {
  }

  lemma RemoteProblemIff(h: Host, name: string, srv: ServerConfig, p: Problem)
    ensures p in RemoteProblems(h, name, srv) <==>
            || (p == MixedTransports(name) && (srv.command != "" || srv.hasArgs || srv.hasEnv))
            || (p == BadUrl(name) && !h.absoluteUrl(srv.url))
            || (p == ClientNeedsOAuth(name) && !srv.oauth && (srv.clientId != "" || srv.secretEnv != ""))
            || (p == SecretNeedsClient(name) && srv.oauth && srv.secretEnv != "" && srv.clientId == "")
  {
  }

  lemma LocalProblemIff(h: Host, name: string, srv: ServerConfig, p: Problem)
    ensures p in LocalProblems(h, name, srv) <==>
            || (p == OAuthNeedsUrl(name) && srv.oauth)
            || (p == HeadersNeedUrl(name) && srv.hasHeaders)
            || (p == NoTransport(name) && srv.command == "")
            || (srv.command != "" && p == CommandNotFound(name) && !h.absolutePath(srv.command) && h.look(srv.command) == None)
            || (srv.command != "" && p == NotExecutable(name) &&
                if h.absolutePath(srv.command) then !h.executable(srv.command)
                else h.look(srv.command).Some? && !h.executable(h.look(srv.command).value))
  {
  }

  lemma PinProblemIff(ns: NsConfig, pin: string, seen: bool, p: Problem)
    ensures p in PinProblems(ns, pin, seen) <==>
            || (p == BadPin(ns.name, pin) && !exists server, tool :: PinOf(pin, server, tool))
            || (p == ForeignPin(ns.name, pin) && exists server, tool :: PinOf(pin, server, tool) && server !in ns.servers)
            || (p == DuplicatePin(ns.name, pin) && seen)
  {
    forall server, tool ensures CutsInto(pin, server, tool) <==> Cut(pin) == Some((server, tool)) {
      CutIff(pin, server, tool);
    }
    match Cut(pin)
    case Some((server, tool)) => assert PinOf(pin, server, tool) <==> tool != "";
    case None =>
  }

  lemma {:induction false} InFlat<T>(part: nat -> seq<T>, n: nat, t: T)
    ensures t in Flat(part, n) <==> exists k: nat :: k < n && t in part(k)
  {
    if n > 0 {
      InFlat(part, n - 1, t);
    }
  }

  function NthPinProblems(ns: NsConfig): nat -> seq<Problem> {
    (k: nat) => if k < |ns.pinned| then PinProblems(ns, ns.pinned[k], ns.pinned[k] in ns.pinned[..k]) else []
  }

  lemma {:induction false} PinsFlat(ns: NsConfig, n: nat)
    requires n <= |ns.pinned|
    ensures PinsProblems(ns, n) == Flat(NthPinProblems(ns), n)
  {
    if n > 0 {
      PinsFlat(ns, n - 1);
    }
  }

  lemma {:induction false} RefProblemIff(c: Config, ns: NsConfig, n: nat, p: Problem)
    requires n <= |ns.servers|
    ensures p in RefProblems(c, ns, n) <==>
            exists k :: 0 <= k < n && ns.servers[k] !in c.servers && p == UnknownServer(ns.name, ns.servers[k])
  {
    if n > 0 {
      RefProblemIff(c, ns, n - 1, p);
    }
  }

  lemma NsHeadIff(ns: NsConfig, seen: bool, p: Problem)
    ensures p in NsHead(ns, seen) <==>
            || (p == BadNamespaceName(ns.name) && !NameRule(ns.name))
            || (p == DuplicateNamespace(ns.name) && seen)
            || (p == NegativeConcurrency(ns.name) && ns.maxConcurrent < 0)
            || (p == BadDiscovery(ns.name) && ns.discovery !in {"", "full", "connector", "search", "hybrid"})
            || (p == PinsNeedHybrid(ns.name) && ns.pinned != [] && ns.discovery != "hybrid")
  {
  }

  /** What is wrong with the `k`-th pin. */
  ghost predicate NthPinWrong(ns: NsConfig, k: nat, p: Problem)
    requires k < |ns.pinned|
  {
    || (p == BadPin(ns.name, ns.pinned[k]) && !exists server, tool :: PinOf(ns.pinned[k], server, tool))
    || (p == ForeignPin(ns.name, ns.pinned[k])
        && exists server, tool :: PinOf(ns.pinned[k], server, tool) && server !in ns.servers)
    || (p == DuplicatePin(ns.name, ns.pinned[k]) && exists j :: 0 <= j < k && ns.pinned[j] == ns.pinned[k])
  }

  lemma PinsWrong(ns: NsConfig, p: Problem)
    ensures p in PinsProblems(ns, |ns.pinned|) <==> exists k: nat :: k < |ns.pinned| && NthPinWrong(ns, k, p)
  {
    PinsFlat(ns, |ns.pinned|);
    InFlat(NthPinProblems(ns), |ns.pinned|, p);
    forall k: nat | k < |ns.pinned| ensures p in NthPinProblems(ns)(k) <==> NthPinWrong(ns, k, p) {
      PinProblemIff(ns, ns.pinned[k], ns.pinned[k] in ns.pinned[..k], p);
    }
  }

  /** The pins' problems, pin by pin. */
  lemma PinsWrongIff(ns: NsConfig, p: Problem)
    ensures p in PinsProblems(ns, |ns.pinned|) <==>
            || (p.BadPin? && p.namespace == ns.name && p.pin in ns.pinned && !exists server, tool :: PinOf(p.pin, server, tool))
            || (p.ForeignPin? && p.namespace == ns.name && p.pin in ns.pinned
                && exists server, tool :: PinOf(p.pin, server, tool) && server !in ns.servers)
            || (p.DuplicatePin? && p.namespace == ns.name
                && exists j, k :: 0 <= j < k < |ns.pinned| && ns.pinned[j] == p.pin == ns.pinned[k])
  {
    PinsWrong(ns, p);
    if k: nat :| k < |ns.pinned| && NthPinWrong(ns, k, p) {
      assert ns.pinned[k] in ns.pinned;
    }
    if (p.BadPin? || p.ForeignPin?) && p.pin in ns.pinned {
      var k: nat :| k < |ns.pinned| && ns.pinned[k] == p.pin;
      assert NthPinWrong(ns, k, p) ==> exists k: nat :: k < |ns.pinned| && NthPinWrong(ns, k, p);
    }
    if p.DuplicatePin? {
      if j, k :| 0 <= j < k < |ns.pinned| && ns.pinned[j] == p.pin == ns.pinned[k] {
        assert p.namespace == ns.name ==> NthPinWrong(ns, k, p);
      }
    }
  }

  lemma NamespaceProblemIff(c: Config, ns: NsConfig, seen: bool, p: Problem)
    ensures p in NsProblems(c, ns, seen) <==>
            || (p == DuplicateNamespace(ns.name) && seen)
            || (OfNamespace(p) && p.namespace == ns.name && WrongNamespace(c, ns, p))
  {
    if p.BadPin? || p.ForeignPin? || p.DuplicatePin? {
      PinCase(c, ns, seen, p);
    } else if p.UnknownServer? {
      RefCase(c, ns, seen, p);
    } else {
      HeadCase(c, ns, seen, p);
    }
  }

  lemma PinCase(c: Config, ns: NsConfig, seen: bool, p: Problem)
    requires p.BadPin? || p.ForeignPin? || p.DuplicatePin?
    ensures p in NsProblems(c, ns, seen) <==> p.namespace == ns.name && WrongNamespace(c, ns, p)
  {
    NsProblemsParts(c, ns, seen, p);
    NsHeadIff(ns, seen, p);
    PinsWrongIff(ns, p);
    RefProblemIff(c, ns, |ns.servers|, p);
  }

  lemma RefCase(c: Config, ns: NsConfig, seen: bool, p: Problem)
    requires p.UnknownServer?
    ensures p in NsProblems(c, ns, seen) <==> p.namespace == ns.name && WrongNamespace(c, ns, p)
  {
    NsProblemsParts(c, ns, seen, p);
    NsHeadIff(ns, seen, p);
    PinsWrongIff(ns, p);
    RefProblemIff(c, ns, |ns.servers|, p);
  }

  lemma HeadCase(c: Config, ns: NsConfig, seen: bool, p: Problem)
    requires !p.BadPin? && !p.ForeignPin? && !p.DuplicatePin? && !p.UnknownServer?
    ensures p in NsProblems(c, ns, seen) <==>
            || (p == DuplicateNamespace(ns.name) && seen)
            || (OfNamespace(p) && p.namespace == ns.name && WrongNamespace(c, ns, p))
  {
    NsProblemsParts(c, ns, seen, p);
    NeitherPinNorRef(c, ns, p);
    HeadIff(c, ns, seen, p);
  }

  lemma HeadIff(c: Config, ns: NsConfig, seen: bool, p: Problem)
    requires !p.BadPin? && !p.ForeignPin? && !p.DuplicatePin? && !p.UnknownServer?
    ensures p in NsHead(ns, seen) || (p == NoServers(ns.name) && ns.servers == []) <==>
            || (p == DuplicateNamespace(ns.name) && seen)
            || (OfNamespace(p) && p.namespace == ns.name && WrongNamespace(c, ns, p))
  {
    FineIff(ns.name);
    NsHeadIff(ns, seen, p);
  }

  lemma NeitherPinNorRef(c: Config, ns: NsConfig, p: Problem)
    requires !p.BadPin? && !p.ForeignPin? && !p.DuplicatePin? && !p.UnknownServer?
    ensures p !in PinsProblems(ns, |ns.pinned|) && p !in RefProblems(c, ns, |ns.servers|)
  {
    PinsWrongIff(ns, p);
    RefProblemIff(c, ns, |ns.servers|, p);
  }

  lemma NsProblemsParts(c: Config, ns: NsConfig, seen: bool, p: Problem)
    ensures p in NsProblems(c, ns, seen) <==>
            || p in NsHead(ns, seen) || p in PinsProblems(ns, |ns.pinned|)
            || (p == NoServers(ns.name) && ns.servers == []) || p in RefProblems(c, ns, |ns.servers|)
  {
  }

  /** What is wrong with the `i`-th namespace. */
  ghost predicate NthWrong(c: Config, i: nat, p: Problem)
    requires i < |c.namespaces|
  {
    var ns := c.namespaces[i];
    || (p == DuplicateNamespace(ns.name) && exists j :: 0 <= j < i && c.namespaces[j].name == ns.name)
    || (OfNamespace(p) && p.namespace == ns.name && WrongNamespace(c, ns, p))
  }

  lemma NthIff(c: Config, i: nat, p: Problem)
    requires i < |c.namespaces|
    ensures p in NthProblems(c)(i) <==> NthWrong(c, i, p)
  {
    NamespaceProblemIff(c, c.namespaces[i], c.namespaces[i].name in NamesBefore(c, i), p);
    NameBeforeIff(c, i, c.namespaces[i].name);
  }

  lemma NamespacesWrong(c: Config, p: Problem)
    ensures p in NamespacesProblems(c, |c.namespaces|) <==> exists i: nat :: i < |c.namespaces| && NthWrong(c, i, p)
  {
    InFlat(NthProblems(c), |c.namespaces|, p);
    forall i: nat | i < |c.namespaces| ensures p in NthProblems(c)(i) <==> NthWrong(c, i, p) {
      NthIff(c, i, p);
    }
  }

  lemma GlobalIff(c: Config, p: Problem)
    ensures p in GlobalProblems(c) <==> WrongGlobally(c, p)
  {
  }

  lemma ServersWrong(h: Host, c: Config, p: Problem)
    ensures ServerProblem(h, c, c.servers.Keys, p) <==>
            OfServer(p) && p.server in c.servers && WrongServer(h, p.server, c.servers[p.server], p)
  {
    forall name | name in c.servers
      ensures p in ServerProblems(h, name, c.servers[name]) <==>
              OfServer(p) && p.server == name && WrongServer(h, name, c.servers[name], p)
    {
      ServerProblemIff(h, name, c.servers[name], p);
    }
  }

  /** Validation reports a problem exactly when it is there, for each kind of problem. */
  lemma ReportedIff(h: Host, c: Config, p: Problem)
    ensures Reported(h, c, p) <==> Wrong(h, c, p)
  {
    ReportedWhere(h, c, p);
    NthWrongIff(c, p);
  }

  lemma ReportedWhere(h: Host, c: Config, p: Problem)
    ensures Reported(h, c, p) <==>
            || WrongGlobally(c, p)
            || (exists i: nat :: i < |c.namespaces| && NthWrong(c, i, p))
            || (OfServer(p) && p.server in c.servers && WrongServer(h, p.server, c.servers[p.server], p))
  {
    GlobalIff(c, p);
    NamespacesWrong(c, p);
    ServersWrong(h, c, p);
  }

  lemma NthWrongIff(c: Config, p: Problem)
    ensures (exists i: nat :: i < |c.namespaces| && NthWrong(c, i, p)) <==>
            || (OfNamespace(p) &&
                exists i :: 0 <= i < |c.namespaces| && c.namespaces[i].name == p.namespace && WrongNamespace(c, c.namespaces[i], p))
            || (p.DuplicateNamespace? &&
                exists i, j :: 0 <= i < j < |c.namespaces| && c.namespaces[i].name == p.namespace == c.namespaces[j].name)
  {
    if i: nat :| i < |c.namespaces| && NthWrong(c, i, p) {
      assert p.DuplicateNamespace? ==> exists j :: 0 <= j < i && c.namespaces[j].name == c.namespaces[i].name;
    }
    if p.DuplicateNamespace? {
      if i, j :| 0 <= i < j < |c.namespaces| && c.namespaces[i].name == p.namespace == c.namespaces[j].name {
        assert NthWrong(c, j, p);
      }
    } else if OfNamespace(p) {
      if i :| 0 <= i < |c.namespaces| && c.namespaces[i].name == p.namespace && WrongNamespace(c, c.namespaces[i], p) {
        assert NthWrong(c, i, p);
      }
    }
  }
}
