/** The meta-tools: searching, describing and calling tools by name. `live` holds
    the cached tools of every known upstream by upstream ID. */
module MetaTools {

  import opened Prelude
  import opened Naming
  import opened Json
  import opened ToolTable
  import opened S = Search
  import A = Agreement

  type Live = map<string, seq<Tool>>

  datatype Error = BadArguments | BadCount | BadName | UnknownServer | NoSuchTool | UnknownTool(name: string)

  datatype Reply<+T> = Ok(value: T) | Err(error: Error)

  /** What a call carries besides the tool's name: the arguments text, and the
      responses and state of a multi-round request. */
  datatype Params = Params(arguments: string, inputResponses: string, requestState: string)

  /** What reaches dispatch: the key that selects limits, breaker and upstream,
      the upstream's own tool name, and the parameters. */
  datatype Request = Request(namespace: string, id: string, tool: string, params: Params)

  /** The input of a meta-tool call: name and arguments as decoded from the outer
      call's arguments, the rest as the outer call carries it. */
  datatype CallInput = CallInput(name: string, params: Params)

  datatype SearchInput = SearchInput(query: string, server: string, limit: int)

  const MAX_NAMES := 50
  const MAX_LIMIT := 50
  const DEFAULT_LIMIT := 10
  const NO_ARGUMENTS: string := "{}"

  function OrEmptyObject(p: Params): Params {
    if p.arguments == "" then p.(arguments := NO_ARGUMENTS) else p
  }

  /** The request a published tool's handler sends. */
  function Handle(ns: Namespace, server: string, tool: string, params: Params): Request {
    Request(ns.name, UpstreamId(ns.name, server), tool, OrEmptyObject(params))
  }

  /** The request for a server's tool with the caller's parameters, an empty arguments
      text standing for the empty object. */
  predicate IsCallOf(req: Request, ns: Namespace, server: string, tool: string, params: Params) {
    && req.namespace == ns.name && req.id == ns.name + "/" + server && req.tool == tool
    && (params.arguments != "" ==> req.params.arguments == params.arguments)
    && (params.arguments == "" ==> req.params.arguments == "{}")
    && req.params.inputResponses == params.inputResponses && req.params.requestState == params.requestState
  }

  /** A reply that lets such a request through. */
  predicate Sends(r: Reply<Request>, ns: Namespace, server: string, tool: string, params: Params) {
    r.Ok? && IsCallOf(r.value, ns, server, tool, params)
  }

  /** What a name stands for: a server's bare tool, or the parts before and after its
      first separator. */
  ghost predicate StandsFor(server: string, name: string, srv: string, tool: string) {
    if server != "" then srv == server && tool == name
    else CutsInto(name, srv, tool)
  }

  /** The answer to a call whose name stands for `srv` and `tool`. */
  ghost predicate Answers(ns: Namespace, live: Live, srv: string, tool: string, params: Params, r: Reply<Request>) {
    if srv !in ns.servers || ns.name + "/" + srv !in live then r == Err(UnknownServer)
    else if forall t :: t in live[ns.name + "/" + srv] ==> t.name != tool then r == Err(NoSuchTool)
    else Sends(r, ns, srv, tool, params)
  }

  /** What a call comes to, for every input. */
  ghost predicate Resolved(ns: Namespace, live: Live, server: string, input: CallInput, r: Reply<Request>) {
    if server == "" && forall srv, tool :: !CutsInto(input.name, srv, tool) then r == Err(BadName)
    else exists srv, tool :: StandsFor(server, input.name, srv, tool) && Answers(ns, live, srv, tool, input.params, r)
  }

  function Lookup(ns: Namespace, live: Live, server: string): Option<seq<Tool>> {
    var id := UpstreamId(ns.name, server);
    if id in live then Some(live[id]) else None
  }

  function Read(ns: Namespace, live: Live): (r: seq<Option<seq<Tool>>>)
    ensures |r| == |ns.servers| && forall k :: 0 <= k < |r| ==> r[k] == Lookup(ns, live, ns.servers[k])
  {
    seq(|ns.servers|, k requires 0 <= k < |ns.servers| => Lookup(ns, live, ns.servers[k]))
  }

  function AllInfos(ns: Namespace, live: Live): seq<ToolInfo> {
    Infos(ns, "", Read(ns, live))
  }

  predicate Named(tools: seq<Tool>, name: string) {
    exists t :: t in tools && t.name == name
  }

  /** What a name is resolved to, with the server fixed or cut off the name. */
  function Resolve(ns: Namespace, live: Live, server: string, input: CallInput): Reply<Request> {
    if server != "" then ResolveOn(ns, live, server, input.name, input.params)
    else match Cut(input.name)
      case None => Err(BadName)
      case Some(parts) => ResolveOn(ns, live, parts.0, parts.1, input.params)
  }

  function ResolveOn(ns: Namespace, live: Live, server: string, tool: string, params: Params): Reply<Request> {
    if server !in ns.servers then Err(UnknownServer)
    else match Lookup(ns, live, server)
      case None => Err(UnknownServer)
      case Some(tools) => if Named(tools, tool) then Ok(Handle(ns, server, tool, params)) else Err(NoSuchTool)
  }

  lemma ResolveIs(ns: Namespace, live: Live, server: string, input: CallInput)
    ensures Resolved(ns, live, server, input, Resolve(ns, live, server, input))
  {
    if server != "" {
      ResolveOnIs(ns, live, server, input.name, input.params);
      assert StandsFor(server, input.name, server, input.name);
    } else if Cut(input.name).Some? {
      var (srv, tool) := Cut(input.name).value;
      CutIff(input.name, srv, tool);
      assert StandsFor("", input.name, srv, tool);
      ResolveOnIs(ns, live, srv, tool, input.params);
    } else {
      forall srv, tool ensures !CutsInto(input.name, srv, tool) {
        CutIff(input.name, srv, tool);
      }
    }
  }

  lemma ResolveOnIs(ns: Namespace, live: Live, srv: string, tool: string, params: Params)
    ensures Answers(ns, live, srv, tool, params, ResolveOn(ns, live, srv, tool, params))
  {
  }

  lemma HandleIs(ns: Namespace, server: string, tool: string, params: Params, req: Request)
    ensures IsCallOf(req, ns, server, tool, params) <==> req == Handle(ns, server, tool, params)
  {
  }

  /** The handler behind `call_tool` and behind each server's `call`. */
  method MetaCall(ns: Namespace, live: Live, server: string, input: Option<CallInput>) returns (r: Reply<Request>)
    ensures r == if input.None? then Err(BadArguments) else Resolve(ns, live, server, input.value)
    ensures if input.None? then r == Err(BadArguments) else Resolved(ns, live, server, input.value, r)
  {
    if input.Some? {
      ResolveIs(ns, live, server, input.value);
    }
    if input.None? {
      return Err(BadArguments);
    }
    var srv, tool := server, input.value.name;
    if srv == "" {
      var parts := Cut(input.value.name);
      if parts.None? {
        return Err(BadName);
      }
      srv, tool := parts.value.0, parts.value.1;
    }
    if srv !in ns.servers {
      return Err(UnknownServer);
    }
    var id := UpstreamId(ns.name, srv);
    if id !in live {
      return Err(UnknownServer);
    }
    var tools := live[id];
    var found := false;
    for k := 0 to |tools|
      invariant !found && !Named(tools[..k], tool)
    {
      if tools[k].name == tool {
        found := true;
        break;
      }
    }
    assert tools[..|tools|] == tools;
    if !found {
      return Err(NoSuchTool);
    }
    var params := input.value.params;
    if |params.arguments| == 0 {
      params := params.(arguments := NO_ARGUMENTS);
    }
    return Ok(Handle(ns, srv, tool, params));
  }

  /** The last entry of a catalog under a name. */
  function LastNamed(infos: seq<ToolInfo>, n: string): (r: Option<ToolInfo>)
    ensures r.None? <==> forall i :: i in infos ==> i.name != n
    ensures r.Some? ==> r.value in infos && r.value.name == n
  {
    if infos == [] then None
    else
      var i := infos[|infos| - 1];
      if i.name == n then Some(i) else LastNamed(infos[..|infos| - 1], n)
  }

  /** A catalog as a map; a later entry replaces an earlier one of the same name. */
  method ByName(catalog: seq<ToolInfo>) returns (byName: map<string, ToolInfo>)
    ensures forall n :: n in byName <==> LastNamed(catalog, n).Some?
    ensures forall n :: n in byName ==> Some(byName[n]) == LastNamed(catalog, n)
  {
    byName := map[];
    for k := 0 to |catalog|
      invariant forall n :: n in byName <==> LastNamed(catalog[..k], n).Some?
      invariant forall n :: n in byName ==> Some(byName[n]) == LastNamed(catalog[..k], n)
    {
      assert catalog[..k + 1][..k] == catalog[..k];
      byName := byName[catalog[k].name := catalog[k]];
    }
    assert catalog[..|catalog|] == catalog;
  }

  ghost predicate Known(all: seq<ToolInfo>, names: seq<string>, count: nat)
    requires count <= |names|
  {
    forall k :: 0 <= k < count ==> LastNamed(all, names[k]).Some?
  }

  /** The answer describes every name in order, or blames the first unknown one. */
  ghost predicate Described(all: seq<ToolInfo>, names: seq<string>, r: Reply<seq<ToolInfo>>) {
    match r
    case Ok(infos) =>
      && Known(all, names, |names|) && |infos| == |names|
      && forall k :: 0 <= k < |names| ==> Some(infos[k]) == LastNamed(all, names[k])
    case Err(e) =>
      exists k :: 0 <= k < |names| && Known(all, names, k) && LastNamed(all, names[k]).None? && e == UnknownTool(names[k])
  }

  method LookUp(ghost catalog: seq<ToolInfo>, byName: map<string, ToolInfo>, names: seq<string>)
    returns (r: Reply<seq<ToolInfo>>)
    requires forall n :: n in byName <==> LastNamed(catalog, n).Some?
    requires forall n :: n in byName ==> Some(byName[n]) == LastNamed(catalog, n)
    ensures Described(catalog, names, r)
  {
    var infos: seq<ToolInfo> := [];
    for k := 0 to |names|
      invariant |infos| == k && Known(catalog, names, k)
      invariant forall j :: 0 <= j < k ==> Some(infos[j]) == LastNamed(catalog, names[j])
    {
      if names[k] !in byName {
        assert LastNamed(catalog, names[k]).None?;
        return Err(UnknownTool(names[k]));
      }
      infos := infos + [byName[names[k]]];
    }
    return Ok(infos);
  }

  /** Full descriptions of the named tools, in the order asked for; the first
      name that is not in the catalog fails the whole request. */
  method Describe(ns: Namespace, live: Live, input: Option<seq<string>>) returns (r: Reply<seq<ToolInfo>>)
    ensures input.None? ==> r == Err(BadArguments)
    ensures input.Some? && !(1 <= |input.value| <= 50) ==> r == Err(BadCount)
    ensures input.Some? && 1 <= |input.value| <= 50 ==> Described(AllInfos(ns, live), input.value, r)
  {
    if input.None? {
      return Err(BadArguments);
    }
    var names := input.value;
    if |names| == 0 || |names| > MAX_NAMES {
      return Err(BadCount);
    }
    var catalog := ToolInfos(ns, "", Read(ns, live));
    var byName := ByName(catalog);
    r := LookUp(catalog, byName, names);
  }

  /** Compact search results: the ranked tools without their schemas. */
  method SearchTools(x: Text, ns: Namespace, live: Live, input: Option<SearchInput>) returns (r: Reply<seq<ToolInfo>>)
    ensures input.None? ==> r == Err(BadArguments)
    ensures input.Some? ==>
              var only, words := input.value.server, Fields(x, Lower(x, input.value.query));
              var limit := if 1 <= input.value.limit <= 50 then input.value.limit else 10;
              var found := Found(x, Infos(ns, only, Read(ns, live)), words, limit);
              r.Ok? && |r.value| == |found| && forall k :: 0 <= k < |found| ==> r.value[k] == found[k].info.(schema := Null)
  {
    if input.None? {
      return Err(BadArguments);
    }
    var limit := input.value.limit;
    if limit <= 0 || limit > MAX_LIMIT {
      limit := DEFAULT_LIMIT;
    }
    var infos := ToolInfos(ns, input.value.server, Read(ns, live));
    var hits := FindTools(x, infos, input.value.query, limit);
    ghost var found := Found(x, Infos(ns, input.value.server, Read(ns, live)), Fields(x, Lower(x, input.value.query)), limit);
    for k := 0 to |hits|
      invariant |hits| == |found|
      invariant forall j :: 0 <= j < |hits| ==> hits[j] == if j < k then found[j].info.(schema := Null) else found[j].info
    {
      hits := hits[k := hits[k].(schema := Null)];
    }
    return Ok(hits);
  }

  // ------------------------------------------------------ where infos come from

  lemma InfosOfMembers(server: string, tools: seq<Tool>, i: ToolInfo)
    ensures i in InfosOf(server, tools) <==> exists t :: t in tools && i == InfoOf(server, t)
  {
    var r := InfosOf(server, tools);
    if i in r {
      var k :| 0 <= k < |r| && r[k] == i;
      assert tools[k] in tools;
    }
    if t :| t in tools && i == InfoOf(server, t) {
      var k :| 0 <= k < |tools| && tools[k] == t;
      assert r[k] == i;
    }
  }

  /** Server `k` puts `i` into the catalog. */
  ghost predicate Lists(ns: Namespace, only: string, read: seq<Option<seq<Tool>>>, k: nat, i: ToolInfo)
    requires k < |read| <= |ns.servers|
  {
    && (only == "" || ns.servers[k] == only)
    && exists t :: t in ToolsOf(read[k]) && i == InfoOf(ns.servers[k], t)
  }

  lemma InfosStep(ns: Namespace, only: string, read: seq<Option<seq<Tool>>>, i: ToolInfo)
    requires 0 < |read| <= |ns.servers|
    ensures var n := |read| - 1;
            i in Infos(ns, only, read) <==> i in Infos(ns, only, read[..n]) || Lists(ns, only, read, n, i)
  {
    var n := |read| - 1;
    InfosOfMembers(ns.servers[n], ToolsOf(read[n]), i);
  }

  lemma {:induction false} InfoMembers(ns: Namespace, only: string, read: seq<Option<seq<Tool>>>, i: ToolInfo)
    requires |read| <= |ns.servers|
    ensures i in Infos(ns, only, read) <==> exists k :: 0 <= k < |read| && Lists(ns, only, read, k, i)
  {
    if read != [] {
      var n := |read| - 1;
      InfoMembers(ns, only, read[..n], i);
      InfosStep(ns, only, read, i);
      assert forall k :: 0 <= k < n ==> (Lists(ns, only, read[..n], k, i) <==> Lists(ns, only, read, k, i));
    }
  }

  /** A tool the namespace can reach: one of its servers has it. */
  ghost predicate Reaches(ns: Namespace, live: Live, server: string, t: Tool) {
    server in ns.servers && ns.name + "/" + server in live && t in live[ns.name + "/" + server]
  }

  /** The row of a server's tool: its prefixed name, and the title clients see. */
  predicate Describes(i: ToolInfo, server: string, t: Tool) {
    && i.name == server + "__" + t.name && i.server == server
    && i.title == (if t.title != "" then t.title
                   else if t.annotationTitle.Some? && t.annotationTitle.value != "" then t.annotationTitle.value
                   else t.name)
    && i.description == t.description && i.schema == t.schema
  }

  /** The catalog holds exactly the tools the namespace reaches. */
  lemma CatalogIsReach(ns: Namespace, live: Live, i: ToolInfo)
    ensures i in AllInfos(ns, live) <==> exists s, t :: Reaches(ns, live, s, t) && i == InfoOf(s, t)
    ensures i in AllInfos(ns, live) <==> exists s, t :: Reaches(ns, live, s, t) && Describes(i, s, t)
  {
    assert forall s, t :: Describes(i, s, t) <==> i == InfoOf(s, t);
    var read := Read(ns, live);
    InfoMembers(ns, "", read, i);
    if k :| 0 <= k < |read| && Lists(ns, "", read, k, i) {
      var t :| t in ToolsOf(read[k]) && i == InfoOf(ns.servers[k], t);
      assert Reaches(ns, live, ns.servers[k], t);
    }
    if s, t :| Reaches(ns, live, s, t) && i == InfoOf(s, t) {
      var k :| 0 <= k < |ns.servers| && ns.servers[k] == s;
      assert t in ToolsOf(read[k]);
      assert Lists(ns, "", read, k, i);
    }
  }

  lemma AnswerIsReached(x: Text, ns: Namespace, live: Live, only: string, words: seq<string>, limit: nat, h: Hit)
    requires h in Found(x, Infos(ns, only, Read(ns, live)), words, limit)
    ensures exists t :: Reaches(ns, live, h.info.server, t) && h.info == InfoOf(h.info.server, t)
  {
    var read := Read(ns, live);
    FoundIsTopK(x, Infos(ns, only, read), words, limit);
    InfoMembers(ns, only, read, h.info);
    var k :| 0 <= k < |read| && Lists(ns, only, read, k, h.info);
    var t :| t in ToolsOf(read[k]) && h.info == InfoOf(ns.servers[k], t);
    assert Reaches(ns, live, h.info.server, t);
  }

  // ------------------------------------------------------------------ call_tool

  lemma SameId(ns: string, s1: string, s2: string)
    requires UpstreamId(ns, s1) == UpstreamId(ns, s2)
    ensures s1 == s2
  {
    assert UpstreamId(ns, s1)[|ns| + 1..] == s1;
    assert UpstreamId(ns, s2)[|ns| + 1..] == s2;
  }

  /** Calling a published name reaches the tool published under it, with the
      request its own handler would send, exactly when the server's name is
      unambiguous. */
  lemma CallReachesToolIff(ns: Namespace, live: Live, server: string, t: Tool, params: Params)
    requires Reaches(ns, live, server, t)
    ensures Sends(Resolve(ns, live, "", CallInput(server + "__" + t.name, params)), ns, server, t.name, params)
       <==> (forall i :: 0 <= i < |server| ==> !SepAt(server, i)) && (server != "" ==> server[|server| - 1] != '_')
  {
    var n := Prefixed(server, t.name);
    assert n == server + "__" + t.name;
    CutInvertsPrefix(server, t.name);
    if Unambiguous(server) {
      assert Named(Lookup(ns, live, server).value, t.name);
    } else if Sends(Resolve(ns, live, "", CallInput(n, params)), ns, server, t.name, params) {
      SameId(ns.name, Cut(n).value.0, server);
    }
  }

  /** Whatever `call_tool` accepts, `describe_tools` accepts too, and the call goes
      to a tool that is published under exactly the name asked for. */
  lemma CallableIsDescribed(ns: Namespace, live: Live, input: CallInput)
    requires Resolve(ns, live, "", input).Ok?
    ensures exists s, t :: Reaches(ns, live, s, t) && input.name == Prefixed(s, t.name)
                           && IsCallOf(Resolve(ns, live, "", input).value, ns, s, t.name, input.params)
    ensures LastNamed(AllInfos(ns, live), input.name).Some?
  {
    CutIsPrefixed(input.name);
    var (s, tool) := Cut(input.name).value;
    var t :| t in Lookup(ns, live, s).value && t.name == tool;
    assert Reaches(ns, live, s, t);
    CatalogIsReach(ns, live, InfoOf(s, t));
  }

  ghost predicate UnambiguousServers(ns: Namespace) {
    forall s :: s in ns.servers ==> Unambiguous(s)
  }

  ghost predicate DistinctTools(live: Live) {
    forall id :: id in live ==> A.DistinctNames(live[id])
  }

  lemma OneToolPerName(ns: Namespace, live: Live, s1: string, t1: Tool, s2: string, t2: Tool)
    requires UnambiguousServers(ns) && DistinctTools(live)
    requires Reaches(ns, live, s1, t1) && Reaches(ns, live, s2, t2) && Prefixed(s1, t1.name) == Prefixed(s2, t2.name)
    ensures s1 == s2 && t1 == t2
  {
    PrefixInjective(s1, t1.name, s2, t2.name);
    A.SameTool(Lookup(ns, live, s1).value, t1, t2);
  }

  /** Every name a search returns is described as the very tool that was found,
      and a call by that name goes to it with the caller's arguments. */
  lemma SearchDescribeCallAgree(x: Text, ns: Namespace, live: Live, only: string, words: seq<string>, limit: nat,
                                h: Hit, params: Params)
    requires UnambiguousServers(ns) && DistinctTools(live)
    requires h in Found(x, Infos(ns, only, Read(ns, live)), words, limit)
    ensures LastNamed(AllInfos(ns, live), h.info.name) == Some(h.info)
    ensures exists t :: Reaches(ns, live, h.info.server, t) && h.info == InfoOf(h.info.server, t)
                        && Sends(Resolve(ns, live, "", CallInput(h.info.name, params)), ns, h.info.server, t.name, params)
  {
    AnswerIsReached(x, ns, live, only, words, limit, h);
    var t :| Reaches(ns, live, h.info.server, t) && h.info == InfoOf(h.info.server, t);
    CallReachesToolIff(ns, live, h.info.server, t, params);
    CatalogIsReach(ns, live, h.info);
    var last := LastNamed(AllInfos(ns, live), h.info.name).value;
    CatalogIsReach(ns, live, last);
    var s, u :| Reaches(ns, live, s, u) && last == InfoOf(s, u);
    OneToolPerName(ns, live, h.info.server, t, s, u);
  }

  /** After a sync, calling a natively listed name through `call_tool` sends the
      request that the native tool's own handler sends. */
  lemma NativeAndMetaCallsAgree(ns: Namespace, meta: Table, live: Live, table: Table, registered: Registered,
                                n: string, params: Params)
    requires A.GoodNamespace(ns, meta) && DistinctTools(live) && Agree(table, registered)
    requires var synced := Synced(table, registered, Catalog(ns, Read(ns, live)));
             n in synced && synced[n].Native?
    ensures var item := Synced(table, registered, Catalog(ns, Read(ns, live)))[n].item;
            && Resolve(ns, live, "", CallInput(n, params)) == Ok(Handle(ns, item.server, item.tool, params))
            && Sends(Resolve(ns, live, "", CallInput(n, params)), ns, item.server, item.tool, params)
  {
    var item := Synced(table, registered, Catalog(ns, Read(ns, live)))[n].item;
    var t := NativeOrigin(ns, meta, live, table, registered, n);
    CallReachesToolIff(ns, live, item.server, t, params);
    HandleIs(ns, item.server, item.tool, params, Handle(ns, item.server, item.tool, params));
    if Resolve(ns, live, "", CallInput(n, params)).Ok? {
      HandleIs(ns, item.server, item.tool, params, Resolve(ns, live, "", CallInput(n, params)).value);
    }
  }

  /** The tool behind a natively listed name. */
  lemma NativeOrigin(ns: Namespace, meta: Table, live: Live, table: Table, registered: Registered, n: string) returns (t: Tool)
    requires A.GoodNamespace(ns, meta) && DistinctTools(live) && Agree(table, registered)
    requires var synced := Synced(table, registered, Catalog(ns, Read(ns, live)));
             n in synced && synced[n].Native?
    ensures var item := Synced(table, registered, Catalog(ns, Read(ns, live)))[n].item;
            && Reaches(ns, live, item.server, t) && item.tool == t.name && Unambiguous(item.server)
            && n == item.server + "__" + t.name
  {
    var read := Read(ns, live);
    var items := Catalog(ns, read);
    A.CatalogIsGood(ns, meta, read);
    SyncRefinesRebuild(table, registered, items);
    InstallAt(MetaOnly(table), items, n);
    var k;
    k, t := A.Origin(ns, read, Last(items, n).value);
    A.GoodServer(ns, meta, k);
  }

  // ------------------------------------------------- describing against calling

  /** Server `k` has a tool under the published name `n`. */
  ghost predicate Publishes(ns: Namespace, read: seq<Option<seq<Tool>>>, k: nat, n: string)
    requires k < |read| <= |ns.servers|
  {
    exists t :: t in ToolsOf(read[k]) && Prefixed(ns.servers[k], t.name) == n
  }

  /** Server `k` is the last in the namespace's order that does. */
  ghost predicate PublishesLast(ns: Namespace, read: seq<Option<seq<Tool>>>, k: nat, n: string)
    requires |read| <= |ns.servers|
  {
    k < |read| && Publishes(ns, read, k, n) && forall j :: k < j < |read| ==> !Publishes(ns, read, j, n)
  }

  lemma {:induction false} LastNamedConcat(a: seq<ToolInfo>, b: seq<ToolInfo>, n: string)
    ensures LastNamed(a + b, n) == if LastNamed(b, n).Some? then LastNamed(b, n) else LastNamed(a, n)
  {
    if b == [] {
      assert a + b == a;
    } else {
      assert (a + b)[..|a + b| - 1] == a + b[..|b| - 1];
      LastNamedConcat(a, b[..|b| - 1], n);
    }
  }

  lemma LastOfServer(server: string, tools: seq<Tool>, n: string)
    ensures var last := LastNamed(InfosOf(server, tools), n);
            && (last.Some? <==> exists t :: t in tools && Prefixed(server, t.name) == n)
            && (last.Some? ==> last.value.server == server)
  {
    var infos := InfosOf(server, tools);
    forall i ensures i in infos <==> exists t :: t in tools && i == InfoOf(server, t) {
      InfosOfMembers(server, tools, i);
    }
    if t :| t in tools && Prefixed(server, t.name) == n {
      assert InfoOf(server, t) in infos;
    }
  }

  /** `last` is what the last server to publish the name has under it, if one does. */
  ghost predicate OfLastPublisher(ns: Namespace, read: seq<Option<seq<Tool>>>, n: string, last: Option<ToolInfo>)
    requires |read| <= |ns.servers|
  {
    match last
    case None => forall k :: 0 <= k < |read| ==> !Publishes(ns, read, k, n)
    case Some(d) => exists k: nat :: PublishesLast(ns, read, k, n) && ns.servers[k] == d.server
  }

  lemma OneMoreServer(ns: Namespace, read: seq<Option<seq<Tool>>>, n: string, last: Option<ToolInfo>)
    requires 0 < |read| <= |ns.servers| && !Publishes(ns, read, |read| - 1, n)
    requires OfLastPublisher(ns, read[..|read| - 1], n, last)
    ensures OfLastPublisher(ns, read, n, last)
  {
    var m := |read| - 1;
    assert forall k :: 0 <= k < m ==> (Publishes(ns, read[..m], k, n) <==> Publishes(ns, read, k, n));
    if last.Some? {
      var k: nat :| PublishesLast(ns, read[..m], k, n) && ns.servers[k] == last.value.server;
      assert PublishesLast(ns, read, k, n);
    }
  }

  /** The catalog entry under a name is that of the last server to publish it. */
  lemma {:induction false} LastPublisher(ns: Namespace, read: seq<Option<seq<Tool>>>, n: string)
    requires |read| <= |ns.servers|
    ensures OfLastPublisher(ns, read, n, LastNamed(Infos(ns, "", read), n))
  {
    if read != [] {
      var m := |read| - 1;
      var front, back := Infos(ns, "", read[..m]), InfosOf(ns.servers[m], ToolsOf(read[m]));
      LastOfServer(ns.servers[m], ToolsOf(read[m]), n);
      LastNamedConcat(front, back, n);
      if Publishes(ns, read, m, n) {
        assert PublishesLast(ns, read, m, n);
      } else {
        LastPublisher(ns, read[..m], n);
        OneMoreServer(ns, read, n, LastNamed(front, n));
      }
    }
  }

  /** A published name without its server. */
  function Bare(n: string, server: string): string {
    if |server| + |SEPARATOR| <= |n| then n[|server| + |SEPARATOR|..] else n
  }

  /** For every name: what nobody publishes is neither described nor called. What
      describe_tools shows is the tool of the last server to publish the name, and
      call_tool goes to that same tool exactly when that server is the part before
      the name's first separator. */
  lemma DescribeAndCallAgreeIff(ns: Namespace, live: Live, n: string, params: Params)
    ensures var call := Resolve(ns, live, "", CallInput(n, params));
            match LastNamed(AllInfos(ns, live), n)
            case None => call.Err?
            case Some(d) =>
              && (exists k: nat :: PublishesLast(ns, Read(ns, live), k, n) && ns.servers[k] == d.server)
              && (exists t :: Reaches(ns, live, d.server, t) && d == InfoOf(d.server, t) && t.name == Bare(n, d.server))
              && Cut(n).Some?
              && (Sends(call, ns, d.server, Bare(n, d.server), params) <==> Cut(n).value.0 == d.server)
  {
    LastPublisher(ns, Read(ns, live), n);
    match LastNamed(AllInfos(ns, live), n)
    case None =>
      if Resolve(ns, live, "", CallInput(n, params)).Ok? {
        CallableIsDescribed(ns, live, CallInput(n, params));
      }
    case Some(d) =>
      CatalogIsReach(ns, live, d);
      var s, t :| Reaches(ns, live, s, t) && d == InfoOf(s, t);
      assert n[|s| + |SEPARATOR|..] == t.name;
      CutsSomewhere(s, t.name);
      CutsThere(n, s, t.name);
      CallReachesToolIff(ns, live, s, t, params);
  }

  lemma CutsSomewhere(server: string, tool: string)
    ensures Cut(Prefixed(server, tool)).Some?
  {
    assert SepAt(Prefixed(server, tool), |server|);
  }

  /** A cut that gives back the server gives back the tool too. */
  lemma CutsThere(n: string, server: string, tool: string)
    requires n == Prefixed(server, tool) && Cut(n).Some?
    ensures Cut(n).value.0 == server <==> Unambiguous(server)
  {
    CutInvertsPrefix(server, tool);
    if Cut(n).value.0 == server {
      CutIsPrefixed(n);
      assert n[|server| + |SEPARATOR|..] == tool && n[|server| + |SEPARATOR|..] == Cut(n).value.1;
    }
  }

  /** With ambiguous servers the two can disagree: one name describes the tool of
      one server and calls the tool of another. */
  lemma DescribeAndCallCanDisagree(ns: Namespace, live: Live, t1: Tool, t2: Tool, params: Params)
    requires ns.servers == ["a", "a_"] && t1.name == "_x" && t2.name == "x"
    requires live == map[UpstreamId(ns.name, "a") := [t1], UpstreamId(ns.name, "a_") := [t2]]
    ensures LastNamed(AllInfos(ns, live), "a___x") == Some(InfoOf("a_", t2))
    ensures Sends(Resolve(ns, live, "", CallInput("a___x", params)), ns, "a", "_x", params)
  {
    LastOfTwo(ns, live, t1, t2);
    assert t1 in live[UpstreamId(ns.name, "a")];
    assert Reaches(ns, live, "a", t1);
    assert Unambiguous("a");
    assert Prefixed("a", "_x") == "a___x";
    CallReachesToolIff(ns, live, "a", t1, params);
  }

  lemma LastOfTwo(ns: Namespace, live: Live, t1: Tool, t2: Tool)
    requires ns.servers == ["a", "a_"] && t2.name == "x"
    requires live == map[UpstreamId(ns.name, "a") := [t1], UpstreamId(ns.name, "a_") := [t2]]
    ensures UpstreamId(ns.name, "a") in live && live[UpstreamId(ns.name, "a")] == [t1]
    ensures LastNamed(AllInfos(ns, live), "a___x") == Some(InfoOf("a_", t2))
  {
    assert |UpstreamId(ns.name, "a")| != |UpstreamId(ns.name, "a_")|;
    assert Prefixed("a_", "x") == "a___x";
    var read := Read(ns, live);
    assert read[..1] + [read[1]] == read;
    assert InfosOf("a_", [t2]) == [InfoOf("a_", t2)];
    assert AllInfos(ns, live) == Infos(ns, "", read[..1]) + [InfoOf("a_", t2)];
  }

  // ------------------------------------------------------------------ connector

  /** A server's own `call` takes bare tool names, for every server name. */
  lemma ConnectorCallIff(ns: Namespace, live: Live, server: string, input: CallInput)
    requires server in ns.servers && server != ""
    ensures Resolve(ns, live, server, input).Ok? <==> exists t :: Reaches(ns, live, server, t) && t.name == input.name
    ensures Resolve(ns, live, server, input).Ok? ==> Sends(Resolve(ns, live, server, input), ns, server, input.name, input.params)
  {
    if t :| Reaches(ns, live, server, t) && t.name == input.name {
      assert Named(Lookup(ns, live, server).value, input.name);
    }
    if Lookup(ns, live, server).Some? && Named(Lookup(ns, live, server).value, input.name) {
      var t :| t in Lookup(ns, live, server).value && t.name == input.name;
      assert Reaches(ns, live, server, t);
    }
  }

  /** `list_tools` returns prefixed names although `call` asks for a name "as
      returned by list_tools": the longest-named tool of a server is listed under
      a name that its `call` refuses. */
  lemma ListedNameIsRefused(ns: Namespace, live: Live, server: string, t: Tool, params: Params)
    requires server != "" && Reaches(ns, live, server, t)
    requires forall u :: u in Lookup(ns, live, server).value ==> |u.name| <= |t.name|
    ensures InfoOf(server, t) in Infos(ns, server, Read(ns, live))
    ensures Resolve(ns, live, server, CallInput(InfoOf(server, t).name, params)) == Err(NoSuchTool)
  {
    var read := Read(ns, live);
    var k :| 0 <= k < |ns.servers| && ns.servers[k] == server;
    assert t in ToolsOf(read[k]);
    assert Lists(ns, server, read, k, InfoOf(server, t));
    InfoMembers(ns, server, read, InfoOf(server, t));
  }
}
