/** One namespace's tool table while its upstreams crash, restart, list tools
    and notify, and syncs read them one by one. */
module Agreement {

  import opened Prelude
  import opened Naming
  import opened ToolTable
  import opened Upstream
  import opened Lifecycle

  /** Whose OnChange, or which startup call, a sync runs for. */
  datatype Owner = RunLoop(k: nat) | Handler(k: nat) | StartupCall

  /** A sync in progress: what it has read so far. */
  datatype Job = Job(owner: Owner, read: seq<Option<seq<Tool>>>)

  /** `ups[k]` is the upstream of server `k`; `meta` is the meta-tool part of the
      table; `seen` is what the last finished sync read. The job holds the
      gateway's lock, so there is at most one. */
  datatype Sys = Sys(
    ns: Namespace, meta: Table, ups: seq<Up>, table: Table, registered: Registered,
    job: Option<Job>, seen: seq<Option<seq<Tool>>>)

  datatype Step =
    | Move(k: nat, e: Event)       // an upstream or one of its handlers moves
    | SyncStart(owner: Owner)      // the lock is taken
    | SyncRead                     // the next server is read and its tools published
    | SyncFinish                   // stale tools removed, lock released, caller resumed

  /** Tool lists name no tool twice. */
  predicate DistinctNames(tools: seq<Tool>) {
    forall i, j :: 0 <= i < j < |tools| ==> tools[i].name != tools[j].name
  }

  predicate SaneEvent(e: Event) {
    && (e.FirstList? ==> DistinctNames(e.tools))
    && (e.HandlerStores? ==> DistinctNames(e.tools))
    && e != Notified && e != HandlerNotified
  }

  predicate CanOwn(s: Sys, o: Owner) {
    match o
    case RunLoop(k) => k < |s.ups| && s.ups[k].pc.Notifying?
    case Handler(k) => k < |s.ups| && s.ups[k].owed > 0
    case StartupCall => true
  }

  /** The caller of a finished sync carries on. */
  function Resume(ups: seq<Up>, o: Owner): seq<Up>
    requires o.StartupCall? || o.k < |ups|
  {
    match o
    case RunLoop(k) => if ups[k].pc.Notifying? then ups[k := Goto(ups[k], ups[k].pc.next)] else ups
    case Handler(k) => if ups[k].owed > 0 then ups[k := ups[k].(owed := ups[k].owed - 1)] else ups
    case StartupCall => ups
  }

  function Advance(maxFailures: int, s: Sys, step: Step): Option<Sys>
    requires |s.ups| == |s.ns.servers|
  {
    match step
    case Move(k, e) =>
      if k < |s.ups| && SaneEvent(e) then
        match Next(maxFailures, s.ups[k], e)
        case None => None
        case Some(u) => Some(s.(ups := s.ups[k := u]))
      else None
    case SyncStart(o) =>
      if s.job.None? && CanOwn(s, o) then Some(s.(job := Some(Job(o, [])))) else None
    case SyncRead =>
      if s.job.None? || |s.job.value.read| >= |s.ups| then None
      else
        var k := |s.job.value.read|;
        var tools := Visible(s.ups[k].sh);
        var changed := Added(s.registered, ServerItems(s.ns, s.ns.servers[k], tools));
        Some(s.(table := Install(s.table, changed),
                job := Some(s.job.value.(read := s.job.value.read + [Some(tools)]))))
    case SyncFinish =>
      if s.job.None? || |s.job.value.read| != |s.ups| || !CanOwn(s, s.job.value.owner) then None
      else
        var items := Catalog(s.ns, s.job.value.read);
        Some(s.(table := s.table - Stale(s.registered, items), registered := Want(items),
                job := None, seen := s.job.value.read, ups := Resume(s.ups, s.job.value.owner)))
  }

  ghost predicate IsInit(s: Sys) {
    && |s.ups| == |s.ns.servers|
    && (forall k :: 0 <= k < |s.ups| ==> exists kind :: s.ups[k] == Init(kind))
    && s.table == s.meta && s.registered == map[] && s.job == None
    && |s.seen| == |s.ups| && (forall k :: 0 <= k < |s.seen| ==> s.seen[k] == Some([]))
  }

  predicate DistinctServers(servers: seq<string>) {
    forall j, k :: 0 <= j < k < |servers| ==> servers[j] != servers[k]
  }

  ghost predicate OnlyMeta(meta: Table) {
    forall n :: n in meta ==> meta[n].Meta? && forall i :: 0 <= i < |n| ==> !SepAt(n, i)
  }

  /** An accepted namespace that lists tools natively and whose published names
      cannot collide: distinct servers, none of them ambiguous. */
  ghost predicate GoodNamespace(ns: Namespace, meta: Table) {
    && (ns.discovery == Full || ns.discovery == Hybrid)
    && (forall k :: 0 <= k < |ns.servers| ==> NameRule(ns.servers[k]) && Unambiguous(ns.servers[k]))
    && DistinctServers(ns.servers)
    && OnlyMeta(meta)
  }

  lemma {:induction false} ServerItemsMembers(ns: Namespace, server: string, tools: seq<Tool>, i: Item)
    ensures i in ServerItems(ns, server, tools) <==>
            exists t :: t in tools && Listed(ns, Prefixed(server, t.name)) && i == Item(Publish(server, t), server, t.name)
  {
    if tools != [] {
      var n := |tools| - 1;
      ServerItemsMembers(ns, server, tools[..n], i);
      assert forall t :: t in tools <==> t in tools[..n] || t == tools[n];
    }
  }

  lemma {:induction false} CatalogMembers(ns: Namespace, read: seq<Option<seq<Tool>>>, i: Item)
    requires |read| <= |ns.servers|
    ensures i in Catalog(ns, read) <==>
            exists k :: 0 <= k < |read| && i in ServerItems(ns, ns.servers[k], ToolsOf(read[k]))
  {
    if read != [] {
      var n := |read| - 1;
      CatalogMembers(ns, read[..n], i);
      assert forall k :: 0 <= k < n ==> read[..n][k] == read[k];
    }
  }

  ghost predicate SaneRead(read: seq<Option<seq<Tool>>>) {
    forall k :: 0 <= k < |read| ==> DistinctNames(ToolsOf(read[k]))
  }

  /** Where an item of the catalog comes from. */
  lemma Origin(ns: Namespace, read: seq<Option<seq<Tool>>>, i: Item) returns (k: nat, t: Tool)
    requires |read| <= |ns.servers| && i in Catalog(ns, read)
    ensures k < |read| && t in ToolsOf(read[k]) && Listed(ns, Prefixed(ns.servers[k], t.name))
    ensures i == Item(Publish(ns.servers[k], t), ns.servers[k], t.name)
  {
    CatalogMembers(ns, read, i);
    k :| 0 <= k < |read| && i in ServerItems(ns, ns.servers[k], ToolsOf(read[k]));
    ServerItemsMembers(ns, ns.servers[k], ToolsOf(read[k]), i);
    t :| t in ToolsOf(read[k]) && Listed(ns, Prefixed(ns.servers[k], t.name))
      && i == Item(Publish(ns.servers[k], t), ns.servers[k], t.name);
  }

  lemma ItemWellFormed(server: string, t: Tool)
    requires NameRule(server)
    ensures WellFormed(Item(Publish(server, t), server, t.name))
  {
    assert server + ": " + DisplayTitle(t) == server + ":" + (" " + DisplayTitle(t));
  }

  lemma SameName(ns: Namespace, meta: Table, read: seq<Option<seq<Tool>>>, i: Item, j: Item)
    requires GoodNamespace(ns, meta) && |read| <= |ns.servers| && SaneRead(read)
    requires i in Catalog(ns, read) && j in Catalog(ns, read) && i.pub.name == j.pub.name
    ensures i == j
  {
    var k, t := Origin(ns, read, i);
    var l, u := Origin(ns, read, j);
    GoodServer(ns, meta, k);
    GoodServer(ns, meta, l);
    PrefixInjective(ns.servers[k], t.name, ns.servers[l], u.name);
    SameServer(ns, meta, k, l);
    SameTool(ToolsOf(read[k]), t, u);
  }

  lemma GoodServer(ns: Namespace, meta: Table, k: nat)
    requires GoodNamespace(ns, meta) && k < |ns.servers|
    ensures NameRule(ns.servers[k]) && Unambiguous(ns.servers[k])
  {
  }

  lemma SameServer(ns: Namespace, meta: Table, k: nat, l: nat)
    requires GoodNamespace(ns, meta) && k < |ns.servers| && l < |ns.servers| && ns.servers[k] == ns.servers[l]
    ensures k == l
  {
  }

  lemma SameTool(tools: seq<Tool>, t: Tool, u: Tool)
    requires DistinctNames(tools) && t in tools && u in tools && t.name == u.name
    ensures t == u
  {
  }

  lemma CatalogIsGood(ns: Namespace, meta: Table, read: seq<Option<seq<Tool>>>)
    requires GoodNamespace(ns, meta) && |read| <= |ns.servers| && SaneRead(read)
    ensures AllWellFormed(Catalog(ns, read)) && UniqueNames(Catalog(ns, read))
  {
    forall i | i in Catalog(ns, read) ensures WellFormed(i) {
      var k, t := Origin(ns, read, i);
      ItemWellFormed(ns.servers[k], t);
    }
    forall i, j | i in Catalog(ns, read) && j in Catalog(ns, read) && i.pub.name == j.pub.name ensures i == j {
      SameName(ns, meta, read, i, j);
    }
  }

  /** The published table of a catalog on top of the meta-tools. */
  function Published(s: Sys, read: seq<Option<seq<Tool>>>): Table
    requires |read| <= |s.ns.servers|
  {
    Install(s.meta, Catalog(s.ns, read))
  }

  lemma {:induction false} InstallConcat(table: Table, a: seq<Item>, b: seq<Item>)
    ensures Install(table, a + b) == Install(Install(table, a), b)
  {
    if b == [] {
      assert a + b == a;
    } else {
      var n := |b| - 1;
      assert (a + b)[..|a + b| - 1] == a + b[..n];
      InstallConcat(table, a, b[..n]);
    }
  }

  lemma {:induction false} AddedConcat(registered: Registered, a: seq<Item>, b: seq<Item>)
    ensures Added(registered, a + b) == Added(registered, a) + Added(registered, b)
  {
    if b == [] {
      assert a + b == a;
    } else {
      var n := |b| - 1;
      assert (a + b)[..|a + b| - 1] == a + b[..n];
      AddedConcat(registered, a, b[..n]);
    }
  }

  lemma MetaAgrees(meta: Table)
    requires OnlyMeta(meta)
    ensures Agree(meta, map[]) && MetaOnly(meta) == meta
  {
  }

  /** A published table agrees with what it registered. */
  lemma PublishedAgrees(s: Sys, read: seq<Option<seq<Tool>>>)
    requires GoodNamespace(s.ns, s.meta) && |read| <= |s.ns.servers| && SaneRead(read)
    ensures Agree(Published(s, read), Want(Catalog(s.ns, read)))
  {
    MetaAgrees(s.meta);
    CatalogIsGood(s.ns, s.meta, read);
    RebuildAgrees(s.meta, map[], Catalog(s.ns, read));
  }

  /** Its meta-tools are the original ones. */
  lemma PublishedKeepsMeta(s: Sys, read: seq<Option<seq<Tool>>>)
    requires GoodNamespace(s.ns, s.meta) && |read| <= |s.ns.servers| && SaneRead(read)
    ensures MetaOnly(Published(s, read)) == s.meta
  {
    var items := Catalog(s.ns, read);
    MetaAgrees(s.meta);
    CatalogIsGood(s.ns, s.meta, read);
    SyncRefinesRebuild(s.meta, map[], items);
    SyncKeepsMeta(s.meta, map[], items);
  }

  /** A sync from one published table ends in the next. */
  lemma SyncPublishes(s: Sys, from: seq<Option<seq<Tool>>>, to: seq<Option<seq<Tool>>>)
    requires GoodNamespace(s.ns, s.meta) && |from| <= |s.ns.servers| && SaneRead(from)
    requires |to| <= |s.ns.servers| && SaneRead(to)
    ensures Synced(Published(s, from), Want(Catalog(s.ns, from)), Catalog(s.ns, to)) == Published(s, to)
  {
    PublishedAgrees(s, from);
    PublishedKeepsMeta(s, from);
    CatalogIsGood(s.ns, s.meta, to);
    SyncRefinesRebuild(Published(s, from), Want(Catalog(s.ns, from)), Catalog(s.ns, to));
  }

  ghost predicate UpFits(maxFailures: int, u: Up) {
    Reachable(maxFailures, u) && DistinctNames(u.sh.tools)
  }

  /** The parts of the state that do not concern notifications. */
  ghost predicate Base(maxFailures: int, s: Sys) {
    && |s.ups| == |s.ns.servers| == |s.seen|
    && GoodNamespace(s.ns, s.meta)
    && SaneRead(s.seen)
    && (forall k :: 0 <= k < |s.ups| ==> UpFits(maxFailures, s.ups[k]))
    && (s.job.Some? ==>
          && |s.job.value.read| <= |s.ups| && SaneRead(s.job.value.read) && CanOwn(s, s.job.value.owner))
  }

  /** The table is the one last published, plus what the sync in progress has added. */
  ghost predicate TableFits(s: Sys)
    requires |s.ns.servers| == |s.seen| && (s.job.Some? ==> |s.job.value.read| <= |s.ns.servers|)
  {
    && s.registered == Want(Catalog(s.ns, s.seen))
    && s.table == match s.job
                  case None => Published(s, s.seen)
                  case Some(j) => Install(Published(s, s.seen), Added(s.registered, Catalog(s.ns, j.read)))
  }

  /** The run loop is bound to notify: it has returned from runOnce, or it has
      written a state and its sync has not started. */
  predicate LoopOwes(s: Sys, k: nat)
    requires k < |s.ups|
  {
    || s.ups[k].pc == Ended || s.ups[k].pc == Deciding
    || (s.ups[k].pc.Notifying? && !(s.job.Some? && s.job.value.owner == RunLoop(k)))
  }

  /** Handlers that stored a list while Ready and whose sync has not started. */
  function HandlersOwing(s: Sys, k: nat): int
    requires k < |s.ups|
  {
    s.ups[k].owed - if s.job.Some? && s.job.value.owner == Handler(k) then 1 else 0
  }

  /** A change notification for upstream `k` is still outstanding. */
  predicate Outstanding(s: Sys, k: nat)
    requires k < |s.ups|
  {
    || LoopOwes(s, k)
    || HandlersOwing(s, k) > 0
    || (s.job.Some? && |s.job.value.read| <= k)
  }

  /** The newest reading of upstream `k` is still what readers of it see. */
  predicate Current(s: Sys, k: nat)
    requires k < |s.ups| == |s.seen|
  {
    var read := if s.job.Some? then s.job.value.read else s.seen;
    k < |read| && read[k] == Some(Visible(s.ups[k].sh))
  }

  ghost predicate Covered(s: Sys)
    requires |s.ups| == |s.seen|
  {
    forall k :: 0 <= k < |s.ups| ==> Outstanding(s, k) || Current(s, k)
  }

  ghost predicate SysInv(maxFailures: int, s: Sys) {
    Base(maxFailures, s) && TableFits(s) && Covered(s)
  }

  /** A step of one upstream either leaves what readers see alone and does not
      settle a debt, or leaves a notification owing. */
  lemma MoveOwesOrKeeps(maxFailures: int, u: Up, e: Event)
    requires Reachable(maxFailures, u) && Next(maxFailures, u, e).Some? && SaneEvent(e)
    ensures var v := Next(maxFailures, u, e).value;
            && v.owed >= u.owed
            && (u.pc.Notifying? ==> v.pc == u.pc)
            && (u.pc == Ended || u.pc == Deciding ==> v.pc == Ended || v.pc == Deciding || v.pc.Notifying?)
            && (Visible(v.sh) != Visible(u.sh) ==>
                  v.owed > u.owed || v.pc == Ended || (v.pc.Notifying? && !u.pc.Notifying?))
  {
    DebtStays(maxFailures, u, e);
    VisibleMoves(maxFailures, u, e);
  }

  lemma DebtStays(maxFailures: int, u: Up, e: Event)
    requires Next(maxFailures, u, e).Some? && SaneEvent(e)
    ensures var v := Next(maxFailures, u, e).value;
            && v.owed >= u.owed
            && (u.pc.Notifying? ==> v.pc == u.pc)
            && (u.pc == Ended || u.pc == Deciding ==> v.pc == Ended || v.pc == Deciding || v.pc.Notifying?)
  {
  }

  lemma VisibleMoves(maxFailures: int, u: Up, e: Event)
    requires Next(maxFailures, u, e).Some? && SaneEvent(e)
    ensures var v := Next(maxFailures, u, e).value;
            Visible(v.sh) != Visible(u.sh) ==>
              v.owed > u.owed || v.pc == Ended || (v.pc.Notifying? && !u.pc.Notifying?)
  {
    if Writes(e) {
      WriteNotifies(maxFailures, u, e);
    } else {
      OthersKeepState(maxFailures, u, e);
      ToolsMove(maxFailures, u, e);
    }
  }

  lemma WriteNotifies(maxFailures: int, u: Up, e: Event)
    requires Next(maxFailures, u, e).Some? && Writes(e)
    ensures Next(maxFailures, u, e).value.pc.Notifying? && !u.pc.Notifying?
  {
  }

  lemma ToolsMove(maxFailures: int, u: Up, e: Event)
    requires Next(maxFailures, u, e).Some? && SaneEvent(e) && !Writes(e)
    ensures var v := Next(maxFailures, u, e).value;
            v.sh.tools == u.sh.tools || u.sh.state != Ready ||
              v.owed > u.owed || v.pc == Ended || (v.pc.Notifying? && !u.pc.Notifying?)
  {
    if !e.HandlerStores? && !e.FirstList? && !e.CleanUp? {
      ToolsStay(maxFailures, u, e);
    }
  }

  lemma ToolsStay(maxFailures: int, u: Up, e: Event)
    requires Next(maxFailures, u, e).Some? && !e.HandlerStores? && !e.FirstList? && !e.CleanUp?
    ensures Next(maxFailures, u, e).value.sh.tools == u.sh.tools
  {
  }

  lemma MoveKeepsNames(maxFailures: int, u: Up, e: Event)
    requires Next(maxFailures, u, e).Some? && SaneEvent(e) && DistinctNames(u.sh.tools)
    ensures DistinctNames(Next(maxFailures, u, e).value.sh.tools)
  {
  }

  lemma MoveCovers(maxFailures: int, s: Sys, k: nat, e: Event, s': Sys, l: nat)
    requires |s.ups| == |s.ns.servers| == |s.seen| && l < |s.ups|
    requires k < |s.ups| ==> Reachable(maxFailures, s.ups[k])
    requires s.job.Some? ==> CanOwn(s, s.job.value.owner)
    requires Advance(maxFailures, s, Move(k, e)) == Some(s')
    requires Outstanding(s, l) || Current(s, l)
    ensures Outstanding(s', l) || Current(s', l)
  {
    if k == l {
      MoveOwesOrKeeps(maxFailures, s.ups[k], e);
    }
  }

  lemma MoveKeeps(maxFailures: int, s: Sys, k: nat, e: Event, s': Sys)
    requires SysInv(maxFailures, s) && Advance(maxFailures, s, Move(k, e)) == Some(s')
    ensures SysInv(maxFailures, s')
  {
    MoveBase(maxFailures, s, k, e, s');
    MoveTable(maxFailures, s, k, e, s');
    forall l | 0 <= l < |s'.ups| ensures Outstanding(s', l) || Current(s', l) {
      MoveCovers(maxFailures, s, k, e, s', l);
    }
  }

  lemma MoveBase(maxFailures: int, s: Sys, k: nat, e: Event, s': Sys)
    requires Base(maxFailures, s) && Advance(maxFailures, s, Move(k, e)) == Some(s')
    ensures Base(maxFailures, s')
  {
    ReachStep(maxFailures, s.ups[k], e, s'.ups[k]);
    MoveKeepsNames(maxFailures, s.ups[k], e);
    MoveOwesOrKeeps(maxFailures, s.ups[k], e);
  }

  lemma MoveTable(maxFailures: int, s: Sys, k: nat, e: Event, s': Sys)
    requires |s.ups| == |s.ns.servers| == |s.seen| && (s.job.Some? ==> |s.job.value.read| <= |s.ns.servers|)
    requires TableFits(s) && Advance(maxFailures, s, Move(k, e)) == Some(s')
    ensures |s'.ns.servers| == |s'.seen| && s'.job == s.job && TableFits(s')
  {
  }

  lemma StartKeeps(maxFailures: int, s: Sys, o: Owner, s': Sys)
    requires SysInv(maxFailures, s) && Advance(maxFailures, s, SyncStart(o)) == Some(s')
    ensures SysInv(maxFailures, s')
  {
    assert Added(s.registered, Catalog(s.ns, [])) == [];
  }

  lemma ReadTable(s: Sys, s': Sys)
    requires |s.ups| == |s.ns.servers| == |s.seen| && s.job.Some? && |s.job.value.read| < |s.ups|
    requires TableFits(s) && s' == Advance(0, s, SyncRead).value
    ensures TableFits(s')
  {
    var read := s.job.value.read;
    var k := |read|;
    var x := Some(Visible(s.ups[k].sh));
    var items := ServerItems(s.ns, s.ns.servers[k], x.value);
    CatalogGrows(s.ns, read, x);
    AddedConcat(s.registered, Catalog(s.ns, read), items);
    InstallConcat(Published(s, s.seen), Added(s.registered, Catalog(s.ns, read)), Added(s.registered, items));
  }

  lemma CatalogGrows(ns: Namespace, read: seq<Option<seq<Tool>>>, x: Option<seq<Tool>>)
    requires |read| < |ns.servers|
    ensures Catalog(ns, read + [x]) ==
            Catalog(ns, read) + if x.Some? then ServerItems(ns, ns.servers[|read|], x.value) else []
  {
    assert (read + [x])[..|read|] == read;
  }

  lemma ReadCovers(maxFailures: int, s: Sys, s': Sys, l: nat)
    requires |s.ups| == |s.ns.servers| == |s.seen| && l < |s.ups|
    requires Advance(maxFailures, s, SyncRead) == Some(s')
    requires Outstanding(s, l) || Current(s, l)
    ensures Outstanding(s', l) || Current(s', l)
  {
  }

  lemma ReadKeeps(maxFailures: int, s: Sys, s': Sys)
    requires SysInv(maxFailures, s) && Advance(maxFailures, s, SyncRead) == Some(s')
    ensures SysInv(maxFailures, s')
  {
    ReadTable(s, s');
    ReadBase(maxFailures, s, s');
    forall l | 0 <= l < |s'.ups| ensures Outstanding(s', l) || Current(s', l) {
      ReadCovers(maxFailures, s, s', l);
    }
  }

  lemma ReadBase(maxFailures: int, s: Sys, s': Sys)
    requires Base(maxFailures, s) && Advance(maxFailures, s, SyncRead) == Some(s')
    ensures Base(maxFailures, s')
  {
  }

  lemma ResumeReachable(maxFailures: int, u: Up)
    requires Reachable(maxFailures, u)
    ensures u.pc.Notifying? ==> Reachable(maxFailures, Goto(u, u.pc.next))
    ensures u.owed > 0 ==> Reachable(maxFailures, u.(owed := u.owed - 1))
  {
    if u.pc.Notifying? {
      ReachStep(maxFailures, u, Notified, Goto(u, u.pc.next));
    }
    if u.owed > 0 {
      ReachStep(maxFailures, u, HandlerNotified, u.(owed := u.owed - 1));
    }
  }

  lemma FinishCovers(maxFailures: int, s: Sys, s': Sys, l: nat)
    requires |s.ups| == |s.ns.servers| == |s.seen| && l < |s.ups|
    requires Advance(maxFailures, s, SyncFinish) == Some(s')
    requires Outstanding(s, l) || Current(s, l)
    ensures |s'.ups| == |s'.seen| == |s.ups|
    ensures Outstanding(s', l) || Current(s', l)
  {
  }

  lemma FinishTable(maxFailures: int, s: Sys, s': Sys)
    requires Base(maxFailures, s) && TableFits(s) && Advance(maxFailures, s, SyncFinish) == Some(s')
    ensures |s'.ns.servers| == |s'.seen| && s'.job == None && TableFits(s')
  {
    FinishFrame(maxFailures, s, s');
    FinishedTable(s, s');
  }

  lemma FinishedTable(s: Sys, s': Sys)
    requires |s.ups| == |s.ns.servers| == |s.seen| && s.job.Some? && |s.job.value.read| == |s.ups|
    requires GoodNamespace(s.ns, s.meta) && SaneRead(s.seen) && SaneRead(s.job.value.read)
    requires TableFits(s) && s'.ns == s.ns && s'.meta == s.meta && s'.seen == s.job.value.read && s'.job == None
    requires var items := Catalog(s.ns, s.job.value.read);
             s'.table == s.table - Stale(s.registered, items) && s'.registered == Want(items)
    ensures TableFits(s')
  {
    SyncPublishes(s, s.seen, s.job.value.read);
  }

  lemma FinishBase(maxFailures: int, s: Sys, s': Sys)
    requires Base(maxFailures, s) && Advance(maxFailures, s, SyncFinish) == Some(s')
    ensures Base(maxFailures, s')
  {
    FinishFrame(maxFailures, s, s');
    forall l | 0 <= l < |s'.ups| ensures UpFits(maxFailures, s'.ups[l]) {
      assert UpFits(maxFailures, s.ups[l]);
      ResumeFits(maxFailures, s.ups, s.job.value.owner, l);
    }
  }

  lemma FinishFrame(maxFailures: int, s: Sys, s': Sys)
    requires |s.ups| == |s.ns.servers| && Advance(maxFailures, s, SyncFinish) == Some(s')
    ensures s.job.Some? && |s.job.value.read| == |s.ups| && CanOwn(s, s.job.value.owner)
    ensures s'.ns == s.ns && s'.meta == s.meta && s'.job == None && s'.seen == s.job.value.read
    ensures s'.ups == Resume(s.ups, s.job.value.owner)
    ensures var items := Catalog(s.ns, s.job.value.read);
            s'.table == s.table - Stale(s.registered, items) && s'.registered == Want(items)
  {
  }

  lemma ResumeFits(maxFailures: int, ups: seq<Up>, o: Owner, l: nat)
    requires (o.StartupCall? || o.k < |ups|) && l < |ups| && UpFits(maxFailures, ups[l])
    ensures |Resume(ups, o)| == |ups| && UpFits(maxFailures, Resume(ups, o)[l])
  {
    ResumeAt(ups, o, l);
    ResumeReachable(maxFailures, ups[l]);
  }

  lemma ResumeAt(ups: seq<Up>, o: Owner, l: nat)
    requires (o.StartupCall? || o.k < |ups|) && l < |ups|
    ensures |Resume(ups, o)| == |ups|
    ensures var u := ups[l];
            || Resume(ups, o)[l] == u
            || (u.pc.Notifying? && Resume(ups, o)[l] == Goto(u, u.pc.next))
            || (u.owed > 0 && Resume(ups, o)[l] == u.(owed := u.owed - 1))
  {
  }

  lemma FinishKeeps(maxFailures: int, s: Sys, s': Sys)
    requires SysInv(maxFailures, s) && Advance(maxFailures, s, SyncFinish) == Some(s')
    ensures SysInv(maxFailures, s')
  {
    FinishBase(maxFailures, s, s');
    FinishTable(maxFailures, s, s');
    FinishCoversAll(maxFailures, s, s');
  }

  lemma FinishCoversAll(maxFailures: int, s: Sys, s': Sys)
    requires Base(maxFailures, s) && Covered(s) && Advance(maxFailures, s, SyncFinish) == Some(s')
    ensures |s'.ups| == |s'.seen| && Covered(s')
  {
    FinishFrame(maxFailures, s, s');
    ResumeLength(s.ups, s.job.value.owner);
    forall l | 0 <= l < |s'.ups| ensures Outstanding(s', l) || Current(s', l) {
      FinishCovers(maxFailures, s, s', l);
    }
  }

  lemma ResumeLength(ups: seq<Up>, o: Owner)
    requires o.StartupCall? || o.k < |ups|
    ensures |Resume(ups, o)| == |ups|
  {
  }

  lemma NamespaceStays(maxFailures: int, s: Sys, step: Step, s': Sys)
    requires |s.ups| == |s.ns.servers| && Advance(maxFailures, s, step) == Some(s')
    ensures s'.ns == s.ns && s'.meta == s.meta
  {
  }

  lemma SysInvStep(maxFailures: int, s: Sys, step: Step, s': Sys)
    requires SysInv(maxFailures, s) && Advance(maxFailures, s, step) == Some(s')
    ensures SysInv(maxFailures, s') && s'.ns == s.ns && s'.meta == s.meta
  {
    NamespaceStays(maxFailures, s, step, s');
    match step
    case Move(k, e) => MoveKeeps(maxFailures, s, k, e, s');
    case SyncStart(o) => StartKeeps(maxFailures, s, o, s');
    case SyncRead => ReadKeeps(maxFailures, s, s');
    case SyncFinish => FinishKeeps(maxFailures, s, s');
  }

  /** A run of the system: each step leads to the next state. */
  ghost predicate IsRun(maxFailures: int, run: seq<Sys>, steps: seq<Step>) {
    && |run| == |steps| + 1 && IsInit(run[0])
    && forall k :: 0 <= k < |steps| ==>
         |run[k].ups| == |run[k].ns.servers| && Advance(maxFailures, run[k], steps[k]) == Some(run[k + 1])
  }

  lemma {:induction false} EmptyCatalog(ns: Namespace, read: seq<Option<seq<Tool>>>)
    requires |read| <= |ns.servers| && forall k :: 0 <= k < |read| ==> read[k] == Some([])
    ensures Catalog(ns, read) == []
  {
    if read != [] {
      EmptyCatalog(ns, read[..|read| - 1]);
    }
  }

  lemma InitInv(maxFailures: int, s: Sys)
    requires IsInit(s) && GoodNamespace(s.ns, s.meta)
    ensures SysInv(maxFailures, s)
  {
    EmptyCatalog(s.ns, s.seen);
    forall k | 0 <= k < |s.ups|
      ensures Reachable(maxFailures, s.ups[k]) && s.ups[k].sh.tools == [] && Current(s, k)
    {
      FreshUpstream(maxFailures, s.ups[k]);
    }
  }

  lemma FreshUpstream(maxFailures: int, u: Up)
    requires exists kind :: u == Init(kind)
    ensures Reachable(maxFailures, u) && u.sh.tools == [] && Visible(u.sh) == []
  {
    var kind :| u == Init(kind);
    InitReachable(maxFailures, kind);
  }

  lemma PrefixIsRun(maxFailures: int, run: seq<Sys>, steps: seq<Step>, n: nat)
    requires IsRun(maxFailures, run, steps) && n <= |steps|
    ensures IsRun(maxFailures, run[..n + 1], steps[..n])
  {
  }

  lemma {:induction false} RunInv(maxFailures: int, run: seq<Sys>, steps: seq<Step>)
    requires IsRun(maxFailures, run, steps) && GoodNamespace(run[0].ns, run[0].meta)
    ensures SysInv(maxFailures, run[|steps|]) && run[|steps|].ns == run[0].ns && run[|steps|].meta == run[0].meta
  {
    if steps == [] {
      InitInv(maxFailures, run[0]);
    } else {
      var n := |steps| - 1;
      PrefixIsRun(maxFailures, run, steps, n);
      RunInv(maxFailures, run[..n + 1], steps[..n]);
      SysInvStep(maxFailures, run[n], steps[n], run[n + 1]);
    }
  }

  /** Upstream `k` is Ready with tool `t`, and the namespace lists it as `n`. */
  ghost predicate Offers(s: Sys, k: nat, t: Tool, n: string)
    requires k < |s.ups| == |s.ns.servers|
  {
    && s.ups[k].sh.state == Ready && t in s.ups[k].sh.tools
    && n == s.ns.servers[k] + "__" + t.name
    && (s.ns.discovery == Hybrid ==> n in s.ns.pinned)
  }

  /** The row of `t` under `n`: the upstream's tool but for its name and a title that
      begins with the server, and a handler that calls that tool of that server. */
  predicate RowFor(server: string, t: Tool, n: string, e: Entry) {
    && e.Native? && e.item.server == server && e.item.tool == t.name
    && e.item.pub.name == n
    && e.item.pub.title == server + ": " +
         (if t.title != "" then t.title
          else if t.annotationTitle.Some? && t.annotationTitle.value != "" then t.annotationTitle.value
          else t.name)
    && e.item.pub.annotationTitle == t.annotationTitle
    && e.item.pub.description == t.description && e.item.pub.schema == t.schema
  }

  /** The table's native rows of server `k` are those of the tools its upstream offers. */
  ghost predicate ServerAgrees(s: Sys, k: nat)
    requires k < |s.ups| == |s.ns.servers|
  {
    && (forall t, n :: Offers(s, k, t, n) ==> n in s.table && RowFor(s.ns.servers[k], t, n, s.table[n]))
    && (forall n :: n in s.table && s.table[n].Native? && s.table[n].item.server == s.ns.servers[k] ==>
          exists t :: Offers(s, k, t, n))
  }

  /** The table holds the meta-tools, and besides them a row for every tool offered and
      no other. */
  ghost predicate TableShows(meta: Table, s: Sys)
    requires |s.ups| == |s.ns.servers|
  {
    && (forall n :: n in meta ==> n in s.table && s.table[n] == meta[n])
    && (forall k, t, n :: 0 <= k < |s.ups| && Offers(s, k, t, n) ==> n in s.table && RowFor(s.ns.servers[k], t, n, s.table[n]))
    && (forall n :: n in s.table && n !in meta ==> exists k, t :: 0 <= k < |s.ups| && Offers(s, k, t, n))
  }

  /** The catalog entry of an offered tool. */
  lemma OfferedItem(s: Sys, k: nat, t: Tool, n: string)
    requires k < |s.ups| == |s.ns.servers|
    ensures Offers(s, k, t, n) <==>
            t in Visible(s.ups[k].sh) && Listed(s.ns, Prefixed(s.ns.servers[k], t.name)) && n == Prefixed(s.ns.servers[k], t.name)
    ensures RowFor(s.ns.servers[k], t, Prefixed(s.ns.servers[k], t.name),
                   Native(Item(Publish(s.ns.servers[k], t), s.ns.servers[k], t.name)))
  {
  }

  lemma PublishedRows(s: Sys, k: nat)
    requires |s.ups| == |s.ns.servers| == |s.seen| && k < |s.ups| && s.seen[k] == Some(Visible(s.ups[k].sh))
    requires GoodNamespace(s.ns, s.meta) && SaneRead(s.seen) && s.table == Published(s, s.seen)
    ensures ServerAgrees(s, k)
  {
    var server, tools := s.ns.servers[k], Visible(s.ups[k].sh);
    PublishedServer(s, k);
    forall t, n | Offers(s, k, t, n) ensures n in s.table && RowFor(server, t, n, s.table[n]) {
      OfferedItem(s, k, t, n);
      ServerItemsMembers(s.ns, server, tools, Item(Publish(server, t), server, t.name));
    }
    forall n | n in s.table && s.table[n].Native? && s.table[n].item.server == server
      ensures exists t :: Offers(s, k, t, n)
    {
      var i := s.table[n].item;
      InstallAt(s.meta, Catalog(s.ns, s.seen), n);
      ServerItemsMembers(s.ns, server, tools, i);
      var t :| t in tools && Listed(s.ns, Prefixed(server, t.name)) && i == Item(Publish(server, t), server, t.name);
      OfferedItem(s, k, t, n);
    }
  }

  lemma PublishedTable(s: Sys)
    requires |s.ups| == |s.ns.servers| == |s.seen| && forall k :: 0 <= k < |s.ups| ==> s.seen[k] == Some(Visible(s.ups[k].sh))
    requires GoodNamespace(s.ns, s.meta) && SaneRead(s.seen) && s.table == Published(s, s.seen)
    ensures TableShows(s.meta, s)
  {
    var items := Catalog(s.ns, s.seen);
    CatalogIsGood(s.ns, s.meta, s.seen);
    forall k, t, n | 0 <= k < |s.ups| && Offers(s, k, t, n)
      ensures n in s.table && RowFor(s.ns.servers[k], t, n, s.table[n])
    {
      PublishedRows(s, k);
    }
    forall n
      ensures n in s.meta ==> n in s.table && s.table[n] == s.meta[n]
      ensures n in s.table && n !in s.meta ==> exists k, t :: 0 <= k < |s.ups| && Offers(s, k, t, n)
    {
      InstallAt(s.meta, items, n);
      if n in s.meta && Last(items, n).Some? {
        WellFormedNamesAreNative(Last(items, n).value);
      }
      if n in s.table && n !in s.meta {
        var k, t := Origin(s.ns, s.seen, Last(items, n).value);
        OfferedItem(s, k, t, n);
      }
    }
  }

  lemma PublishedServer(s: Sys, k: nat)
    requires |s.ups| == |s.ns.servers| == |s.seen| && k < |s.ups|
    requires GoodNamespace(s.ns, s.meta) && SaneRead(s.seen) && s.table == Published(s, s.seen)
    ensures forall i: Item :: i.server == s.ns.servers[k] ==>
              ((i.pub.name in s.table && s.table[i.pub.name] == Native(i)) <==>
               i in ServerItems(s.ns, s.ns.servers[k], ToolsOf(s.seen[k])))
  {
    var items := Catalog(s.ns, s.seen);
    CatalogIsGood(s.ns, s.meta, s.seen);
    forall i: Item | i.server == s.ns.servers[k]
      ensures (i.pub.name in s.table && s.table[i.pub.name] == Native(i)) <==>
              i in ServerItems(s.ns, s.ns.servers[k], ToolsOf(s.seen[k]))
    {
      InstallAt(s.meta, items, i.pub.name);
      CatalogMembers(s.ns, s.seen, i);
      if i in items {
        var l, t := Origin(s.ns, s.seen, i);
        SameServer(s.ns, s.meta, k, l);
        var m :| 0 <= m < |s.seen| && i in ServerItems(s.ns, s.ns.servers[m], ToolsOf(s.seen[m]));
        ServerItemsMembers(s.ns, s.ns.servers[m], ToolsOf(s.seen[m]), i);
        SameServer(s.ns, s.meta, k, m);
      }
    }
  }

  /** In every run, under any interleaving of crashes, restarts, tool changes,
      handlers and syncs: whenever no sync is in progress, either the table's
      rows for a server are exactly those of the tools its upstream has while it is
      Ready, or a change notification for that upstream is still outstanding. */
  lemma TableAgreesOrNotificationOutstanding(maxFailures: int, run: seq<Sys>, steps: seq<Step>, k: nat)
    requires IsRun(maxFailures, run, steps) && GoodNamespace(run[0].ns, run[0].meta)
    requires var s := run[|steps|]; k < |s.ups| && s.job == None
    ensures var s := run[|steps|];
            |s.ups| == |s.ns.servers| && (Outstanding(s, k) || ServerAgrees(s, k))
  {
    RunInv(maxFailures, run, steps);
    var s := run[|steps|];
    if !Outstanding(s, k) {
      assert Current(s, k);
      PublishedRows(s, k);
    }
  }

  /** Once nothing is outstanding the table holds the meta-tools it started with, a row
      for every tool of every Ready upstream that is listed, and no other; it is what a
      rebuild makes of the tools the upstreams show. */
  lemma QuiescentTableIsRebuild(maxFailures: int, run: seq<Sys>, steps: seq<Step>)
    requires IsRun(maxFailures, run, steps) && GoodNamespace(run[0].ns, run[0].meta)
    requires var s := run[|steps|]; s.job == None && forall k :: 0 <= k < |s.ups| ==> !Outstanding(s, k)
    ensures var s := run[|steps|];
            && |s.ups| == |s.ns.servers| && TableShows(run[0].table, s)
            && s.table == Install(run[0].table, Catalog(s.ns, Shown(s)))
  {
    RunInv(maxFailures, run, steps);
    var s := run[|steps|];
    forall k | 0 <= k < |s.ups| ensures s.seen[k] == Shown(s)[k] {
      assert Current(s, k);
    }
    assert s.seen == Shown(s);
    PublishedTable(s);
  }

  /** What a sync would read now. */
  function Shown(s: Sys): (r: seq<Option<seq<Tool>>>)
    ensures |r| == |s.ups|
  {
    seq(|s.ups|, k requires 0 <= k < |s.ups| => Some(Visible(s.ups[k].sh)))
  }
}
