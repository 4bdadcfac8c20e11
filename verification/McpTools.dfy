/** The registry and the clients' cached lists as the code updates them. */
module McpTools {
  import opened Outcomes
  import opened Spec = Contributions

  class Server {
    var order: seq<string>
    var byPlugin: map<string, seq<Tool>>
    var exposed: map<string, bool>
    var version: nat
    var clients: map<string, Client>
    const core: seq<Tool>

    function Registered(): Registry
      reads this
    {
      Registry(order, byPlugin, exposed, version, core)
    }

    ghost predicate Valid()
      reads this
    {
      Current(World(Registered(), clients))
    }

    constructor (core: seq<Tool>)
      requires OwnTools(core)
      ensures Valid() && Registered() == Registry([], map[], map[], 0, core) && clients == map[]
    {
      order, byPlugin, exposed, version, clients := [], map[], map[], 0, map[];
      this.core := core;
    }

    method ListContributions() returns (tools: seq<Tool>)
      requires Valid()
      ensures tools == Listed(Registered(), order)
    {
      tools := [];
      for i := 0 to |order|
        invariant forall p | p in order[..i] :: p in byPlugin
        invariant tools == Listed(Registered(), order[..i])
      {
        assert order[i] in order && order[..i + 1][..i] == order[..i];
        tools := tools + byPlugin[order[i]];
      }
      assert order[..|order|] == order;
    }

    /** The other plugin, if any, whose namespace is the same. */
    method NamespaceOwner(plugin: string) returns (owner: Option<string>)
      requires Valid()
      ensures owner.Some? ==> owner.value in byPlugin && owner.value != plugin
                              && NamespaceFor(owner.value) == NamespaceFor(plugin)
      ensures owner.None? ==> forall p | p in byPlugin && p != plugin :: NamespaceFor(p) != NamespaceFor(plugin)
    {
      for i := 0 to |order|
        invariant forall j | 0 <= j < i :: order[j] != plugin ==> NamespaceFor(order[j]) != NamespaceFor(plugin)
      {
        if order[i] != plugin && NamespaceFor(order[i]) == NamespaceFor(plugin) {
          assert order[i] in order;
          return Some(order[i]);
        }
      }
      return None;
    }

    method BuildTools(plugin: string, tools: seq<Contribution>) returns (r: Result<seq<Tool>, Error>)
      ensures r.Ok? <==> forall i | 0 <= i < |tools| :: Fault(tools, i).None?
      ensures r.Ok? ==> r.value == BuiltAll(plugin, tools)
      ensures r.Err? ==> exists i :: 0 <= i < |tools| && Fault(tools, i) == Some(r.error)
                                     && forall j | 0 <= j < i :: Fault(tools, j).None?
    {
      var seen: set<string>, built: seq<Tool> := {}, [];
      for i := 0 to |tools|
        invariant seen == set j | 0 <= j < i :: tools[j].name
        invariant built == BuiltAll(plugin, tools[..i])
        invariant forall j | 0 <= j < i :: Fault(tools, j).None?
      {
        var t := tools[i];
        assert t.name in seen <==> Named(tools[..i], t.name) by {
          if t.name in seen {
            var j :| 0 <= j < i && tools[j].name == t.name;
            assert tools[..i][j] == tools[j];
          }
        }
        if !ValidName(t.name) {
          assert Fault(tools, i) == Some(InvalidName);
          return Err(InvalidName);
        }
        if t.name in seen {
          assert Fault(tools, i) == Some(Duplicate);
          return Err(Duplicate);
        }
        seen := seen + {t.name};
        if Blank(t.description) {
          assert Fault(tools, i) == Some(NoDescription);
          return Err(NoDescription);
        }
        if !t.usableSchema {
          assert Fault(tools, i) == Some(BadSchema);
          return Err(BadSchema);
        }
        built := built + [Built(plugin, t)];
        assert tools[..i + 1] == tools[..i] + [t];
      }
      assert tools[..|tools|] == tools;
      return Ok(built);
    }

    /** The first built name another plugin already bears. */
    method FindClash(plugin: string, built: seq<Tool>) returns (clash: Option<string>)
      requires Valid()
      ensures clash.None? ==> forall i | 0 <= i < |built| :: !Taken(Registered(), plugin, built[i].name)
      ensures clash.Some? ==> exists i :: 0 <= i < |built| && built[i].name == clash.value
                                          && Taken(Registered(), plugin, clash.value)
                                          && forall j | 0 <= j < i :: !Taken(Registered(), plugin, built[j].name)
    {
      var listed := ListContributions();
      ListedHolds(Registered(), order);
      for i := 0 to |built|
        invariant forall j | 0 <= j < i :: !Taken(Registered(), plugin, built[j].name)
      {
        var name := built[i].name;
        if exists t | t in listed :: t.plugin != plugin && t.name == name {
          ghost var t :| t in listed && t.plugin != plugin && t.name == name;
          ghost var p :| p in order && t in byPlugin[p];
          assert Taken(Registered(), plugin, name);
          return Some(name);
        }
        assert !Taken(Registered(), plugin, name) by {
          forall p, k | p in byPlugin && p != plugin && 0 <= k < |byPlugin[p]| ensures byPlugin[p][k].name != name {
            assert byPlugin[p][k] in listed;
          }
        }
      }
      return None;
    }

    /** Every check is made before anything is touched. */
    method CheckContributions(plugin: string, tools: seq<Contribution>) returns (r: Result<seq<Tool>, Error>)
      requires Valid()
      ensures r.Ok? <==> Accepted(Registered(), plugin, tools)
      ensures r.Ok? ==> r.value == BuiltAll(plugin, tools)
      ensures r.Err? ==> Refused(Registered(), plugin, tools, r.error)
    {
      var owner := NamespaceOwner(plugin);
      if owner.Some? {
        return Err(NamespaceTaken(owner.value));
      }
      r := BuildTools(plugin, tools);
      if r.Err? {
        return;
      }
      var clash := FindClash(plugin, r.value);
      forall i | 0 <= i < |tools| ensures r.value[i].name == FullName(plugin, tools[i].name) {
      }
      if clash.Some? {
        return Err(AlreadyRegistered(clash.value));
      }
    }

    /** All or nothing: accepted as a whole, or refused with nothing changed. */
    method RegisterContributions(plugin: string, tools: seq<Contribution>) returns (r: Result<(), Error>)
      requires Valid()
      modifies this
      ensures Valid() && clients == old(clients)
      ensures r.Ok? <==> Accepted(old(Registered()), plugin, tools)
      ensures r.Err? ==> Refused(old(Registered()), plugin, tools, r.error)
      ensures Registered() == if r.Ok? then Spec.Registered(old(Registered()), plugin, tools) else old(Registered())
    {
      var built := CheckContributions(plugin, tools);
      if built.Err? {
        return Err(built.error);
      }
      ghost var next := Spec.Registered(Registered(), plugin, tools);
      RegisteringKeepsCurrent(World(Registered(), clients), plugin, tools);
      assert Current(World(next, clients));
      order := if plugin in byPlugin then order else order + [plugin];
      byPlugin := byPlugin[plugin := built.value];
      version := version + 1;
      assert Registered() == next;
      return Ok(());
    }

    method ClearContributions(plugin: string)
      requires Valid()
      modifies this
      ensures Valid() && clients == old(clients) && Registered() == Cleared(old(Registered()), plugin)
    {
      ghost var next := Cleared(Registered(), plugin);
      ClearingKeepsCurrent(World(Registered(), clients), plugin);
      assert Current(World(next, clients));
      if plugin in byPlugin {
        order := Without(order, plugin);
        byPlugin := byPlugin - {plugin};
        version := version + 1;
      }
      assert Registered() == next;
    }

    method SetPluginExposed(plugin: string, on: bool)
      requires Valid()
      modifies this
      ensures Valid() && clients == old(clients)
      ensures Registered() == old(Registered()).(exposed := old(exposed)[plugin := on], version := old(version) + 1)
    {
      exposed := exposed[plugin := on];
      version := version + 1;
    }

    /** The client's own tools, then those of the exposed plugins. */
    method BuildMcpTools() returns (tools: seq<Tool>)
      requires Valid()
      ensures tools == Offered(Registered())
    {
      var contributed := BuildContributedTools();
      return core + contributed;
    }

    method BuildContributedTools() returns (tools: seq<Tool>)
      requires Valid()
      ensures tools == Shown(Registered(), Listed(Registered(), order))
    {
      var listed := ListContributions();
      tools := [];
      for i := 0 to |listed|
        invariant tools == Shown(Registered(), listed[..i])
      {
        assert listed[..i + 1][..i] == listed[..i];
        if Exposed(Registered(), listed[i].plugin) {
          tools := tools + [listed[i]];
        }
      }
      assert listed[..|listed|] == listed;
    }

    /** The client's state; its list is rebuilt only when the version moved, and is always the list one
        would build now. */
    method StateFor(client: string, name: string) returns (c: Client)
      requires Valid()
      modifies this`clients
      ensures Valid() && clients == old(clients)[client := c]
      ensures c == Asked(World(Registered(), old(clients)), client, name)
      ensures c.tools == Offered(Registered())
    {
      var known := client in clients;
      var called := if name != "" then name else if known then clients[client].name else "";
      if known && clients[client].version == version {
        c := clients[client].(name := called);
      } else {
        var tools := BuildMcpTools();
        c := Client(called, tools, version);
      }
      clients := clients[client := c];
    }

    method CloseClient(client: string)
      requires Valid()
      modifies this`clients
      ensures Valid() && clients == old(clients) - {client}
    {
      clients := clients - {client};
    }
  }

  lemma {:induction false} ListedHolds(r: Registry, order: seq<string>)
    requires forall p | p in order :: p in r.byPlugin
    ensures forall t :: t in Listed(r, order) <==> exists p :: p in order && t in r.byPlugin[p]
  {
    if order == [] {
    } else {
      var init, last := order[..|order| - 1], order[|order| - 1];
      ListedHolds(r, init);
      assert order == init + [last];
    }
  }
}
