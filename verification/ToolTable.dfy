/** The native tool table of one namespace and its incremental sync. */
module ToolTable {

  import opened Prelude
  import opened Naming
  import opened Json

  datatype Tool = Tool(name: string, title: string, annotationTitle: Option<string>, description: string, schema: Json)

  /** `Full` also stands for the empty setting. */
  datatype Discovery = Full | Connector | Search | Hybrid

  datatype Namespace = Namespace(name: string, servers: seq<string>, discovery: Discovery, pinned: seq<string>)

  /** A published tool together with the upstream tool its handler calls. */
  datatype Item = Item(pub: Tool, server: string, tool: string)

  /** One row of the MCP server's tool table. */
  datatype Entry = Meta | Native(item: Item)

  type Table = map<string, Entry>

  /** Published tools by name. The encoded form the source stores determines the
      tool, so the tool itself stands for its encoding. */
  type Registered = map<string, Tool>

  function DisplayTitle(t: Tool): string {
    if t.title != "" then t.title
    else if t.annotationTitle.Some? && t.annotationTitle.value != "" then t.annotationTitle.value
    else t.name
  }

  function Publish(server: string, t: Tool): Tool {
    t.(name := Prefixed(server, t.name), title := server + ": " + DisplayTitle(t))
  }

  predicate ListsNatively(ns: Namespace) {
    ns.discovery.Full? || ns.discovery.Hybrid?
  }

  predicate Listed(ns: Namespace, name: string) {
    ns.discovery.Hybrid? ==> name in ns.pinned
  }

  /** The published tools of one server, in catalog order. */
  function ServerItems(ns: Namespace, server: string, tools: seq<Tool>): seq<Item> {
    if tools == [] then []
    else
      var t := tools[|tools| - 1];
      var rest := ServerItems(ns, server, tools[..|tools| - 1]);
      if Listed(ns, Prefixed(server, t.name)) then rest + [Item(Publish(server, t), server, t.name)] else rest
  }

  /** What a lookup of an upstream and its cached tools gives; a missing
      upstream contributes nothing. */
  function ToolsOf(r: Option<seq<Tool>>): seq<Tool> {
    match r
    case None => []
    case Some(tools) => tools
  }

  /** The published tools of the first `|read|` servers. */
  function Catalog(ns: Namespace, read: seq<Option<seq<Tool>>>): seq<Item>
    requires |read| <= |ns.servers|
  {
    if read == [] then []
    else
      var k := |read| - 1;
      Catalog(ns, read[..k]) + ServerItems(ns, ns.servers[k], ToolsOf(read[k]))
  }

  /** The last item published under a name. */
  function Last(items: seq<Item>, n: string): (r: Option<Item>)
    ensures r.None? <==> forall i :: i in items ==> i.pub.name != n
    ensures r.Some? ==> r.value in items && r.value.pub.name == n
  {
    if items == [] then None
    else
      var i := items[|items| - 1];
      if i.pub.name == n then Some(i) else Last(items[..|items| - 1], n)
  }

  function Want(items: seq<Item>): Registered {
    if items == [] then map[]
    else var i := items[|items| - 1]; Want(items[..|items| - 1])[i.pub.name := i.pub]
  }

  predicate Unchanged(registered: Registered, i: Item) {
    i.pub.name in registered && registered[i.pub.name] == i.pub
  }

  /** The items a sync hands to AddTool, in order. */
  function Added(registered: Registered, items: seq<Item>): seq<Item> {
    if items == [] then []
    else
      var i := items[|items| - 1];
      var rest := Added(registered, items[..|items| - 1]);
      if Unchanged(registered, i) then rest else rest + [i]
  }

  function Install(table: Table, items: seq<Item>): Table {
    if items == [] then table
    else var i := items[|items| - 1]; Install(table, items[..|items| - 1])[i.pub.name := Native(i)]
  }

  function Stale(registered: Registered, items: seq<Item>): set<string> {
    registered.Keys - Want(items).Keys
  }

  /** The tool table after a sync. */
  function Synced(table: Table, registered: Registered, items: seq<Item>): Table {
    Install(table, Added(registered, items)) - Stale(registered, items)
  }

  function MetaOnly(table: Table): Table {
    map n | n in table && table[n].Meta? :: table[n]
  }

  /** The simple form: drop every native tool and publish the catalog anew. */
  function Rebuild(table: Table, items: seq<Item>): Table {
    Install(MetaOnly(table), items)
  }

  /** An item names its own server and tool, and the server name can be read
      off the title (accepted server names hold no colon). */
  predicate WellFormed(i: Item) {
    && i.pub.name == Prefixed(i.server, i.tool)
    && ':' !in i.server
    && i.server + ":" <= i.pub.title
  }

  predicate AllWellFormed(items: seq<Item>) {
    forall i :: i in items ==> WellFormed(i)
  }

  /** The published tool determines whose tool it is. */
  lemma PublishedDeterminesItem(i: Item, j: Item)
    requires WellFormed(i) && WellFormed(j) && i.pub == j.pub
    ensures i == j
  {
    var t := i.pub.title;
    assert t[|i.server|] == ':' && t[|j.server|] == ':';
    assert forall k :: 0 <= k < |i.server| ==> t[k] == i.server[k] && t[k] != ':';
    assert forall k :: 0 <= k < |j.server| ==> t[k] == j.server[k] && t[k] != ':';
    assert i.server == t[..|i.server|] && j.server == t[..|j.server|];
    assert i.tool == i.pub.name[|i.server| + 2..] && j.tool == j.pub.name[|j.server| + 2..];
  }

  /** The table and the record of what was registered describe the same native
      tools, and every other entry is a meta-tool, whose name has no separator. */
  ghost predicate Agree(table: Table, registered: Registered) {
    && (forall n :: n in registered ==>
          && n in table && table[n].Native? && WellFormed(table[n].item)
          && table[n].item.pub == registered[n] && registered[n].name == n)
    && (forall n :: n in table && table[n].Native? ==> n in registered)
    && (forall n, i :: n in table && table[n].Meta? && 0 <= i < |n| ==> !SepAt(n, i))
  }

  /** No name is published twice with different content. */
  ghost predicate UniqueNames(items: seq<Item>) {
    forall i, j :: i in items && j in items && i.pub.name == j.pub.name ==> i == j
  }

  lemma {:induction false} WantAt(items: seq<Item>, n: string)
    ensures n in Want(items) <==> Last(items, n).Some?
    ensures n in Want(items) ==> Want(items)[n] == Last(items, n).value.pub
  {
    if items != [] {
      WantAt(items[..|items| - 1], n);
    }
  }

  lemma {:induction false} InstallAt(table: Table, items: seq<Item>, n: string)
    ensures n in Install(table, items) <==> n in table || Last(items, n).Some?
    ensures Last(items, n).Some? ==> Install(table, items)[n] == Native(Last(items, n).value)
    ensures Last(items, n).None? && n in table ==> Install(table, items)[n] == table[n]
  {
    if items != [] {
      InstallAt(table, items[..|items| - 1], n);
    }
  }

  lemma {:induction false} AddedMembers(registered: Registered, items: seq<Item>, i: Item)
    ensures i in Added(registered, items) <==> i in items && !Unchanged(registered, i)
  {
    if items != [] {
      var k := |items| - 1;
      assert items == items[..k] + [items[k]];
      AddedMembers(registered, items[..k], i);
    }
  }

  /** Where the last item under a name is not skipped, it is also the last one added. */
  lemma {:induction false} LastAdded(registered: Registered, items: seq<Item>, n: string)
    requires Last(items, n).Some? && !Unchanged(registered, Last(items, n).value)
    ensures Last(Added(registered, items), n) == Last(items, n)
  {
    var k := |items| - 1;
    if items[k].pub.name != n {
      LastAdded(registered, items[..k], n);
      if !Unchanged(registered, items[k]) {
        var a := Added(registered, items[..k]);
        assert Added(registered, items) == a + [items[k]];
        assert (a + [items[k]])[..|a|] == a;
      }
    }
  }

  lemma WellFormedNamesAreNative(i: Item)
    requires WellFormed(i)
    ensures SepAt(i.pub.name, |i.server|)
  {
  }

  /** Every sync leaves the meta-tools alone. */
  lemma SyncKeepsMeta(table: Table, registered: Registered, items: seq<Item>)
    requires Agree(table, registered) && AllWellFormed(items)
    ensures MetaOnly(Synced(table, registered, items)) == MetaOnly(table)
  {
    var t' := Synced(table, registered, items);
    forall n
      ensures (n in t' && t'[n].Meta?) <==> (n in table && table[n].Meta?)
    {
      InstallAt(table, Added(registered, items), n);
      WantAt(items, n);
      match Last(Added(registered, items), n)
      case Some(i) =>
        AddedMembers(registered, items, i);
        WellFormedNamesAreNative(i);
      case None =>
    }
  }

  /** A name is left wrong by a sync when its last item is skipped as already
      registered although an earlier item under the name was added. */
  ghost predicate Shadowed(registered: Registered, items: seq<Item>, n: string) {
    && Last(items, n).Some?
    && Unchanged(registered, Last(items, n).value)
    && exists i :: i in items && i.pub.name == n && i.pub != registered[n]
  }

  /** What a sync leaves under one name, against what the rebuild puts there. */
  lemma SyncAt(table: Table, registered: Registered, items: seq<Item>, n: string)
    requires Agree(table, registered) && AllWellFormed(items)
    ensures var s, r := Synced(table, registered, items), Rebuild(table, items);
            if Shadowed(registered, items, n)
            then n in s && n in r && s[n] != r[n]
            else (n in s <==> n in r) && (n in s ==> s[n] == r[n])
  {
    var added := Added(registered, items);
    InstallAt(table, added, n);
    InstallAt(MetaOnly(table), items, n);
    WantAt(items, n);
    match Last(items, n)
    case None =>
      if Last(added, n).Some? {
        AddedMembers(registered, items, Last(added, n).value);
      }
    case Some(last) =>
      if !Unchanged(registered, last) {
        LastAdded(registered, items, n);
      } else {
        PublishedDeterminesItem(table[n].item, last);
        match Last(added, n)
        case Some(a) => AddedMembers(registered, items, a);
        case None =>
          forall i | i in items && i.pub.name == n
            ensures i.pub == registered[n]
          {
            AddedMembers(registered, items, i);
          }
      }
  }

  /** A sync equals the rebuild exactly when it shadows no name. */
  lemma SyncEqualsRebuildIff(table: Table, registered: Registered, items: seq<Item>)
    requires Agree(table, registered) && AllWellFormed(items)
    ensures Synced(table, registered, items) == Rebuild(table, items)
       <==> forall n :: n in Want(items) ==> !Shadowed(registered, items, n)
  {
    var s, r := Synced(table, registered, items), Rebuild(table, items);
    forall n
      ensures Shadowed(registered, items, n) ==> n in s && n in r && s[n] != r[n]
      ensures !Shadowed(registered, items, n) ==> (n in s <==> n in r) && (n in s ==> s[n] == r[n])
      ensures Shadowed(registered, items, n) ==> n in Want(items)
    {
      SyncAt(table, registered, items, n);
      WantAt(items, n);
    }
    if s == r {
      forall n | n in Want(items) ensures !Shadowed(registered, items, n) {
        assert n in s ==> s[n] == r[n];
      }
    }
  }

  /** With unique published names the incremental sync refines the rebuild: same
      table, agreement restored, exactly the changed tools added, exactly the
      vanished ones removed. */
  lemma SyncRefinesRebuild(table: Table, registered: Registered, items: seq<Item>)
    requires Agree(table, registered) && AllWellFormed(items) && UniqueNames(items)
    ensures Synced(table, registered, items) == Rebuild(table, items)
    ensures Agree(Synced(table, registered, items), Want(items))
    ensures forall i :: i in Added(registered, items) <==>
                        i in items && !(i.pub.name in table && table[i.pub.name] == Native(i))
    ensures forall n :: n in Stale(registered, items) <==>
                        n in table && table[n].Native? && forall i :: i in items ==> i.pub.name != n
  {
    SyncEqualsRebuildIff(table, registered, items);
    forall i
      ensures i in Added(registered, items) <==> i in items && !(i.pub.name in table && table[i.pub.name] == Native(i))
    {
      AddedMembers(registered, items, i);
      if i in items && Unchanged(registered, i) {
        PublishedDeterminesItem(table[i.pub.name].item, i);
      }
    }
    forall n
      ensures n in Want(items) <==> exists i :: i in items && i.pub.name == n
    {
      WantAt(items, n);
    }
    RebuildAgrees(table, registered, items);
  }

  lemma RebuildAgrees(table: Table, registered: Registered, items: seq<Item>)
    requires Agree(table, registered) && AllWellFormed(items)
    ensures Agree(Rebuild(table, items), Want(items))
  {
    var r := Rebuild(table, items);
    forall n
      ensures n in Want(items) ==> n in r && r[n].Native? && WellFormed(r[n].item)
                                   && r[n].item.pub == Want(items)[n] && Want(items)[n].name == n
      ensures n in r && r[n].Native? ==> n in Want(items)
      ensures n in r && r[n].Meta? ==> n in table && table[n].Meta?
    {
      InstallAt(MetaOnly(table), items, n);
      WantAt(items, n);
    }
  }

  /** Syncing the same catalog again adds nothing, removes nothing and keeps the table. */
  lemma RepeatSyncIsIdle(table: Table, registered: Registered, items: seq<Item>)
    requires Agree(table, registered) && AllWellFormed(items) && UniqueNames(items)
    ensures var s := Synced(table, registered, items);
            && Added(Want(items), items) == []
            && Stale(Want(items), items) == {}
            && Synced(s, Want(items), items) == s
  {
    forall i | i in items ensures Unchanged(Want(items), i) {
      WantAt(items, i.pub.name);
    }
    var again := Added(Want(items), items);
    if again != [] {
      AddedMembers(Want(items), items, again[0]);
    }
  }

  /** Two tools of one upstream under one name: the first sync from an empty
      table is right, the second identical one puts the first tool back while
      the record still holds the second. */
  lemma DuplicateToolsBreakRepeatSync(server: string, t1: Tool, t2: Tool, table: Table)
    requires ':' !in server && t1.name == t2.name && Publish(server, t1) != Publish(server, t2)
    requires Agree(table, map[])
    ensures var items := [Item(Publish(server, t1), server, t1.name), Item(Publish(server, t2), server, t2.name)];
            var first := Synced(table, map[], items);
            var n := Prefixed(server, t1.name);
            && first == Rebuild(table, items)
            && Agree(first, Want(items))
            && Synced(first, Want(items), items) != Rebuild(first, items)
            && !Agree(Synced(first, Want(items), items), Want(items))
            && n in Synced(first, Want(items), items) && Synced(first, Want(items), items)[n] == Native(items[0])
  {
    var a, b := Item(Publish(server, t1), server, t1.name), Item(Publish(server, t2), server, t2.name);
    var items := [a, b];
    var n := Prefixed(server, t1.name);
    assert items[..1] == [a];
    SyncEqualsRebuildIff(table, map[], items);
    RebuildAgrees(table, map[], items);
    var first := Synced(table, map[], items);
    assert Want(items)[n] == b.pub;
    assert Added(Want(items), items) == [a] by {
      assert Added(Want(items), [a]) == [a];
    }
    assert Last([a], n) == Some(a);
    InstallAt(first, [a], n);
    assert a in items;
    SyncAt(first, Want(items), items, n);
  }

  lemma ServerItemsStep(ns: Namespace, server: string, tools: seq<Tool>, j: nat)
    requires j < |tools|
    ensures var rest, t := ServerItems(ns, server, tools[..j]), tools[j];
            ServerItems(ns, server, tools[..j + 1]) ==
            if Listed(ns, Prefixed(server, t.name)) then rest + [Item(Publish(server, t), server, t.name)] else rest
  {
    assert tools[..j + 1][..j] == tools[..j];
  }

  /** Publishing one more item. */
  lemma PublishOne(registered: Registered, base: Table, items: seq<Item>, i: Item)
    ensures Want(items + [i]) == Want(items)[i.pub.name := i.pub]
    ensures Added(registered, items + [i]) ==
            if Unchanged(registered, i) then Added(registered, items) else Added(registered, items) + [i]
    ensures Install(base, Added(registered, items) + [i]) ==
            Install(base, Added(registered, items))[i.pub.name := Native(i)]
  {
    assert (items + [i])[..|items|] == items;
    var added := Added(registered, items);
    assert (added + [i])[..|added|] == added;
  }

  /** A sync that has dealt with `items` so far, starting from table `base`. */
  ghost predicate Progress(registered: Registered, base: Table, items: seq<Item>,
                           want: Registered, added: seq<Item>, table: Table)
  {
    want == Want(items) && added == Added(registered, items) && table == Install(base, added)
  }

  /** The meta-tools a namespace starts with. */
  function MetaNames(ns: Namespace): set<string> {
    match ns.discovery
    case Full => {}
    case Connector =>
      (set s | s in ns.servers :: Prefixed(s, "list_tools")) + (set s | s in ns.servers :: Prefixed(s, "call"))
    case _ => {"search_tools", "describe_tools", "call_tool"}
  }

  /** Where native tools are listed, no meta-tool can be taken for one. */
  lemma MetaNamesHaveNoSeparator(ns: Namespace)
    requires ns.discovery == Full || ns.discovery == Hybrid
    ensures forall n, i :: n in MetaNames(ns) && 0 <= i < |n| ==> !SepAt(n, i)
  {
    assert forall i :: 0 <= i < 12 ==> !SepAt("search_tools", i);
    assert forall i :: 0 <= i < 14 ==> !SepAt("describe_tools", i);
    assert forall i :: 0 <= i < 9 ==> !SepAt("call_tool", i);
  }

  lemma ConnectorNames(ns: Namespace)
    ensures ns.discovery == Connector ==>
              forall n :: n in MetaNames(ns) <==> exists s :: s in ns.servers && (n == s + "__list_tools" || n == s + "__call")
  {
    forall s ensures Prefixed(s, "list_tools") == s + "__list_tools" && Prefixed(s, "call") == s + "__call" {
      AppendAssoc(s, SEPARATOR, "list_tools");
      AppendAssoc(s, SEPARATOR, "call");
    }
    if ns.discovery == Connector {
      forall n | exists s :: s in ns.servers && (n == s + "__list_tools" || n == s + "__call") ensures n in MetaNames(ns) {
        var s :| s in ns.servers && (n == s + "__list_tools" || n == s + "__call");
      }
    }
  }

  /** One namespace's MCP server. */
  class NsServer {
    const ns: Namespace
    var table: Table
    var registered: Registered

    constructor (ns: Namespace)
      ensures this.ns == ns && registered == map[] && forall n :: n in table ==> table[n] == Meta
      ensures ns.discovery == Full ==> table.Keys == {}
      ensures ns.discovery == Search || ns.discovery == Hybrid ==>
                table.Keys == {"search_tools", "describe_tools", "call_tool"}
      ensures ns.discovery == Connector ==>
                forall n :: n in table <==> exists s :: s in ns.servers && (n == s + "__list_tools" || n == s + "__call")
      ensures ListsNatively(ns) ==> Agree(table, registered)
    {
      this.ns := ns;
      this.table := map n | n in MetaNames(ns) :: Meta;
      this.registered := map[];
      ConnectorNames(ns);
      if ListsNatively(ns) {
        MetaNamesHaveNoSeparator(ns);
      }
    }

    /** Publishes one tool unless it is already registered as it stands. */
    method PublishTool(i: Item, want: Registered, added: seq<Item>, ghost items: seq<Item>, ghost base: Table)
      returns (want': Registered, added': seq<Item>)
      requires Progress(registered, base, items, want, added, table)
      modifies this`table
      ensures Progress(registered, base, items + [i], want', added', table)
    {
      PublishOne(registered, base, items, i);
      want', added' := want[i.pub.name := i.pub], added;
      if i.pub.name in registered && registered[i.pub.name] == want'[i.pub.name] {
        return;
      }
      table := table[i.pub.name := Native(i)];
      added' := added + [i];
    }

    /** Publishes one server's tools on top of those of the servers before it. */
    method PublishServer(server: string, tools: seq<Tool>, want: Registered, added: seq<Item>,
                         ghost before: seq<Item>, ghost base: Table)
      returns (want': Registered, added': seq<Item>)
      requires Progress(registered, base, before, want, added, table)
      modifies this`table
      ensures Progress(registered, base, before + ServerItems(ns, server, tools), want', added', table)
    {
      want', added' := want, added;
      ghost var items: seq<Item> := [];
      assert before + items == before;
      for j := 0 to |tools|
        invariant items == ServerItems(ns, server, tools[..j])
        invariant Progress(registered, base, before + items, want', added', table)
      {
        var t := tools[j];
        var name := Prefixed(server, t.name);
        ServerItemsStep(ns, server, tools, j);
        if ns.discovery.Hybrid? && name !in ns.pinned {
          continue;
        }
        var i := Item(Publish(server, t), server, t.name);
        want', added' := PublishTool(i, want', added', before + items, base);
        AppendAssoc(before, items, [i]);
        items := items + [i];
      }
      assert tools[..|tools|] == tools;
    }

    /** Brings the native tools in line with what was read from each server's
        upstream, `read[k]` at the moment server `k` was looked at. */
    method SyncLocked(read: seq<Option<seq<Tool>>>) returns (added: seq<Item>, removed: set<string>)
      requires |read| == |ns.servers|
      modifies this`table, this`registered
      ensures ns.discovery == Connector || ns.discovery == Search ==>
                table == old(table) && registered == old(registered) && added == [] && removed == {}
      ensures ns.discovery == Full || ns.discovery == Hybrid ==>
                var items := Catalog(ns, read);
                && table == Synced(old(table), old(registered), items)
                && registered == Want(items)
                && added == Added(old(registered), items)
                && removed == Stale(old(registered), items)
    {
      added, removed := [], {};
      if !ListsNatively(ns) {
        return;
      }
      var want: Registered := map[];
      ghost var items: seq<Item> := [];
      for k := 0 to |ns.servers|
        invariant items == Catalog(ns, read[..k])
        invariant Progress(registered, old(table), items, want, added, table)
        invariant registered == old(registered)
      {
        assert read[..k + 1][..k] == read[..k];
        match read[k]
        case None =>
        case Some(tools) =>
          want, added := PublishServer(ns.servers[k], tools, want, added, items, old(table));
          items := items + ServerItems(ns, ns.servers[k], tools);
      }
      assert read[..|ns.servers|] == read;
      removed := set name | name in registered && name !in want;
      table := table - removed;
      registered := want;
    }
  }
}
