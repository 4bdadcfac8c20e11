/** Tools that plugins contribute, under names that must not clash, and each client's cached tool list,
    which is rebuilt only when the registry's version has moved. */
module Contributions {
  import opened Outcomes

  datatype Contribution = Contribution(name: string, description: string, usableSchema: bool,
                                       mutating: Option<bool>, body: nat)

  datatype Tool = Tool(plugin: string, name: string, description: string, mutating: bool, body: nat)

  datatype Error =
    | NamespaceTaken(owner: string) | InvalidName | Duplicate | NoDescription | BadSchema
    | AlreadyRegistered(name: string)

  /** `order` is the order in which plugins first registered: a map that remembers insertion. `core`
      are the client's own tools, the same all the time. */
  datatype Registry = Registry(
    order: seq<string>, byPlugin: map<string, seq<Tool>>, exposed: map<string, bool>, version: nat, core: seq<Tool>)

  datatype Client = Client(name: string, tools: seq<Tool>, version: nat)

  datatype World = World(registry: Registry, clients: map<string, Client>)

  const PLUGIN_PREFIX := "plugin-"

  function NamespaceFor(plugin: string): string {
    if |plugin| >= |PLUGIN_PREFIX| && plugin[..|PLUGIN_PREFIX|] == PLUGIN_PREFIX then plugin[|PLUGIN_PREFIX|..]
    else plugin
  }

  predicate ValidName(name: string) {
    name != "" && forall i | 0 <= i < |name| :: 'a' <= name[i] <= 'z' || '0' <= name[i] <= '9' || name[i] == '_'
  }

  predicate Space(c: char) {
    var n := c as int;
    9 <= n <= 13 || n == 32 || n == 160 || n == 0x1680 || 0x2000 <= n <= 0x200A
    || n == 0x2028 || n == 0x2029 || n == 0x202F || n == 0x205F || n == 0x3000 || n == 0xFEFF
  }

  predicate Blank(s: string) {
    forall i | 0 <= i < |s| :: Space(s[i])
  }

  function FullName(plugin: string, name: string): string {
    NamespaceFor(plugin) + "__" + name
  }

  function Built(plugin: string, t: Contribution): Tool {
    Tool(plugin, FullName(plugin, t.name), t.description, t.mutating != Some(false), t.body)
  }

  function BuiltAll(plugin: string, tools: seq<Contribution>): seq<Tool> {
    seq(|tools|, i requires 0 <= i < |tools| => Built(plugin, tools[i]))
  }

  predicate Named(tools: seq<Contribution>, name: string) {
    exists i | 0 <= i < |tools| :: tools[i].name == name
  }

  /** Why tool `i` of a set is unusable on its own account. */
  function Fault(tools: seq<Contribution>, i: nat): Option<Error>
    requires i < |tools|
  {
    if !ValidName(tools[i].name) then Some(InvalidName)
    else if Named(tools[..i], tools[i].name) then Some(Duplicate)
    else if Blank(tools[i].description) then Some(NoDescription)
    else if !tools[i].usableSchema then Some(BadSchema)
    else None
  }

  /** The tools of every plugin but one, in listing order. */
  function Listed(r: Registry, order: seq<string>): seq<Tool>
    requires forall p | p in order :: p in r.byPlugin
  {
    if order == [] then [] else Listed(r, order[..|order| - 1]) + r.byPlugin[order[|order| - 1]]
  }

  ghost predicate Taken(r: Registry, plugin: string, name: string) {
    exists p, i :: p in r.byPlugin && p != plugin && 0 <= i < |r.byPlugin[p]| && r.byPlugin[p][i].name == name
  }

  /** When a whole set is accepted: no other plugin owns the namespace, every tool is usable, and no
      name is another plugin's. */
  ghost predicate Accepted(r: Registry, plugin: string, tools: seq<Contribution>) {
    && (forall p | p in r.byPlugin && p != plugin :: NamespaceFor(p) != NamespaceFor(plugin))
    && (forall i | 0 <= i < |tools| :: Fault(tools, i).None?)
    && (forall i | 0 <= i < |tools| :: !Taken(r, plugin, FullName(plugin, tools[i].name)))
  }

  /** Why a set is refused: the first check that fails decides, for the first tool it fails on. */
  ghost predicate Refused(r: Registry, plugin: string, tools: seq<Contribution>, e: Error) {
    if exists p :: p in r.byPlugin && p != plugin && NamespaceFor(p) == NamespaceFor(plugin) then
      e.NamespaceTaken? && e.owner in r.byPlugin && e.owner != plugin && NamespaceFor(e.owner) == NamespaceFor(plugin)
    else if exists i :: 0 <= i < |tools| && Fault(tools, i).Some? then
      (exists i :: 0 <= i < |tools| && Fault(tools, i) == Some(e) && forall j | 0 <= j < i :: Fault(tools, j).None?)
    else
      && e.AlreadyRegistered? && Taken(r, plugin, e.name)
      && (exists i :: 0 <= i < |tools| && e.name == FullName(plugin, tools[i].name)
                      && forall j | 0 <= j < i :: !Taken(r, plugin, FullName(plugin, tools[j].name)))
  }

  function Registered(r: Registry, plugin: string, tools: seq<Contribution>): Registry {
    Registry(if plugin in r.byPlugin then r.order else r.order + [plugin],
             r.byPlugin[plugin := BuiltAll(plugin, tools)], r.exposed, r.version + 1, r.core)
  }

  function Without(order: seq<string>, plugin: string): seq<string> {
    if order == [] then []
    else
      var (init, p) := (Without(order[..|order| - 1], plugin), order[|order| - 1]);
      if p == plugin then init else init + [p]
  }

  function Cleared(r: Registry, plugin: string): Registry {
    if plugin in r.byPlugin
    then Registry(Without(r.order, plugin), r.byPlugin - {plugin}, r.exposed, r.version + 1, r.core) else r
  }

  // ---------- what is registered ----------

  /** A plugin's namespace is its id without the prefix, if it has it. */
  lemma {:induction false} NamespaceDropsPrefix(plugin: string, rest: string)
    ensures NamespaceFor("plugin-" + rest) == rest
    ensures (forall r: string :: plugin != "plugin-" + r) ==> NamespaceFor(plugin) == plugin
  {
    assert ("plugin-" + rest)[..7] == "plugin-" && ("plugin-" + rest)[7..] == rest;
    if |plugin| >= 7 && plugin[..7] == "plugin-" {
      assert plugin == "plugin-" + plugin[7..];
    }
  }

  /** A registered set is the contributed one, tool by tool, each under its full name and taken for
      changing things unless it says it does not; no other plugin's tools and no plugin's place move. */
  lemma {:induction false} RegisteredAsContributed(r: Registry, plugin: string, tools: seq<Contribution>)
    ensures var r' := Registered(r, plugin, tools);
            && plugin in r'.byPlugin && |r'.byPlugin[plugin]| == |tools|
            && (forall i | 0 <= i < |tools| ::
                  var (t, c) := (r'.byPlugin[plugin][i], tools[i]);
                  && t.plugin == plugin && t.name == NamespaceFor(plugin) + "__" + c.name
                  && t.description == c.description && t.body == c.body && (!t.mutating <==> c.mutating == Some(false)))
            && (forall p | p in r.byPlugin && p != plugin :: p in r'.byPlugin && r'.byPlugin[p] == r.byPlugin[p])
            && r'.exposed == r.exposed && r'.core == r.core && r.order <= r'.order
  {
  }

  /** Blanks and line breaks show nothing; letters, digits and marks do. */
  lemma {:induction false} WhatShows()
    ensures Space(' ') && Space('\t') && Space('\n') && Space('\r')
    ensures forall c: char | '!' <= c <= '~' :: !Space(c)
  {
  }

  /** A tool usable on its own: its name is a word of small letters, digits and underscores, its
      description shows something and its schema can be used. */
  ghost predicate Usable(c: Contribution) {
    && c.name != "" && (forall x | x in c.name :: 'a' <= x <= 'z' || '0' <= x <= '9' || x == '_')
    && (exists x :: x in c.description && !Space(x)) && c.usableSchema
  }

  lemma {:induction false} UsableTools(tools: seq<Contribution>, i: nat)
    requires i < |tools|
    ensures Fault(tools, i).None? <==> Usable(tools[i]) && forall j | 0 <= j < i :: tools[j].name != tools[i].name
  {
    var c := tools[i];
    assert forall k | 0 <= k < |c.name| :: c.name[k] in c.name;
    assert forall x :: x in c.name <==> exists k :: 0 <= k < |c.name| && c.name[k] == x;
    assert Blank(c.description) <==> forall x | x in c.description :: Space(x);
    if j :| 0 <= j < i && tools[j].name == c.name {
      assert tools[..i][j] == tools[j];
    }
  }

  /** A set is usable exactly when each tool is and their names are distinct. */
  lemma {:induction false} UsableSets(tools: seq<Contribution>)
    ensures (forall i | 0 <= i < |tools| :: Fault(tools, i).None?) <==>
              && (forall c | c in tools :: Usable(c))
              && (forall i, j | 0 <= i < j < |tools| :: tools[i].name != tools[j].name)
  {
    forall i | 0 <= i < |tools|
      ensures Fault(tools, i).None? <==> Usable(tools[i]) && forall j | 0 <= j < i :: tools[j].name != tools[i].name
    {
      UsableTools(tools, i);
    }
  }

  // ---------- names never clash ----------

  ghost predicate Distinct(tools: seq<Tool>) {
    forall i, j | 0 <= i < j < |tools| :: tools[i].name != tools[j].name
  }

  /** A name with the mark that stands between a namespace and a tool's own name. */
  predicate Qualified(name: string) {
    exists k | 0 <= k < |name| - 1 :: name[k] == '_' && name[k + 1] == '_'
  }

  /** The client's own tools have names of their own, without that mark. */
  ghost predicate OwnTools(core: seq<Tool>) {
    Distinct(core) && forall i | 0 <= i < |core| :: !Qualified(core[i].name)
  }

  ghost predicate Inv(r: Registry) {
    && (forall p :: p in r.order <==> p in r.byPlugin)
    && (forall i, j | 0 <= i < j < |r.order| :: r.order[i] != r.order[j])
    && (forall p, q | p in r.byPlugin && q in r.byPlugin && NamespaceFor(p) == NamespaceFor(q) :: p == q)
    && (forall p, i | p in r.byPlugin && 0 <= i < |r.byPlugin[p]| :: r.byPlugin[p][i].plugin == p)
    && (forall p | p in r.byPlugin :: Distinct(r.byPlugin[p]))
    && (forall p, i | p in r.byPlugin && 0 <= i < |r.byPlugin[p]| :: Qualified(r.byPlugin[p][i].name))
    && OwnTools(r.core)
    && Apart(r)
  }

  /** No tool of one plugin bears the name of another plugin's. */
  ghost predicate Apart(r: Registry) {
    forall p, q, i, j | p in r.byPlugin && q in r.byPlugin && p != q
                        && 0 <= i < |r.byPlugin[p]| && 0 <= j < |r.byPlugin[q]| ::
      r.byPlugin[p][i].name != r.byPlugin[q][j].name
  }

  lemma {:induction false} BuiltNamesDistinct(plugin: string, tools: seq<Contribution>)
    requires forall i | 0 <= i < |tools| :: Fault(tools, i).None?
    ensures Distinct(BuiltAll(plugin, tools))
  {
    forall i, j | 0 <= i < j < |tools| ensures FullName(plugin, tools[i].name) != FullName(plugin, tools[j].name) {
      assert Fault(tools, j).None? && tools[..j][i] == tools[i];
      assert FullName(plugin, tools[i].name)[|NamespaceFor(plugin)| + 2..] == tools[i].name;
      assert FullName(plugin, tools[j].name)[|NamespaceFor(plugin)| + 2..] == tools[j].name;
    }
  }

  lemma {:induction false} RegisteringKeepsApart(r: Registry, plugin: string, tools: seq<Contribution>)
    requires Apart(r) && Accepted(r, plugin, tools)
    ensures Apart(Registered(r, plugin, tools))
  {
    forall q, i, j | q in r.byPlugin && q != plugin && 0 <= i < |tools| && 0 <= j < |r.byPlugin[q]|
      ensures FullName(plugin, tools[i].name) != r.byPlugin[q][j].name
    {
      assert !Taken(r, plugin, FullName(plugin, tools[i].name));
    }
  }

  lemma {:induction false} FullNameIsQualified(plugin: string, name: string)
    ensures Qualified(FullName(plugin, name))
  {
    var k := |NamespaceFor(plugin)|;
    assert FullName(plugin, name)[k] == '_' && FullName(plugin, name)[k + 1] == '_';
  }

  lemma {:induction false} RegisteringKeepsNames(r: Registry, plugin: string, tools: seq<Contribution>)
    requires Inv(r) && Accepted(r, plugin, tools)
    ensures Inv(Registered(r, plugin, tools))
  {
    var r' := Registered(r, plugin, tools);
    BuiltNamesDistinct(plugin, tools);
    RegisteringKeepsApart(r, plugin, tools);
    forall i | 0 <= i < |tools| ensures Qualified(r'.byPlugin[plugin][i].name) {
      FullNameIsQualified(plugin, tools[i].name);
    }
    assert forall p :: p in r'.order <==> p in r.order || p == plugin;
  }

  lemma {:induction false} WithoutDrops(order: seq<string>, plugin: string)
    requires forall i, j | 0 <= i < j < |order| :: order[i] != order[j]
    ensures var w := Without(order, plugin);
            && (forall p :: p in w <==> p in order && p != plugin)
            && (forall i, j | 0 <= i < j < |w| :: w[i] != w[j])
  {
    if order == [] {
    } else {
      var init, last := order[..|order| - 1], order[|order| - 1];
      WithoutDrops(init, plugin);
      assert order == init + [last];
      forall i | 0 <= i < |Without(init, plugin)| ensures Without(init, plugin)[i] != last {
        assert Without(init, plugin)[i] in init;
      }
    }
  }

  /** The plugins that stay keep their order. */
  lemma {:induction false} WithoutKeepsOrder(a: seq<string>, b: seq<string>, plugin: string)
    ensures Without(a + b, plugin) == Without(a, plugin) + Without(b, plugin)
  {
    if b == [] {
      assert a + b == a;
    } else {
      var init := b[..|b| - 1];
      assert (a + b)[..|a + b| - 1] == a + init;
      WithoutKeepsOrder(a, init, plugin);
    }
  }

  lemma {:induction false} WithoutOfOne(p: string, plugin: string)
    ensures Without([p], plugin) == if p == plugin then [] else [p]
  {
    assert [p][..0] == [] && Without([], plugin) == [];
  }

  lemma {:induction false} ClearingKeepsNames(r: Registry, plugin: string)
    requires Inv(r)
    ensures var r' := Cleared(r, plugin);
            && Inv(r')
            && (forall p :: p in r'.byPlugin <==> p in r.byPlugin && p != plugin)
            && (forall p | p in r'.byPlugin :: r'.byPlugin[p] == r.byPlugin[p])
  {
    WithoutDrops(r.order, plugin);
  }

  /** All registered names are distinct, over the whole listing. */
  lemma {:induction false} ListedNamesDistinct(r: Registry, order: seq<string>)
    requires Inv(r) && (forall p | p in order :: p in r.byPlugin)
    requires forall i, j | 0 <= i < j < |order| :: order[i] != order[j]
    ensures Distinct(Listed(r, order))
    ensures forall t | t in Listed(r, order) :: t.plugin in order && t in r.byPlugin[t.plugin]
  {
    if order == [] {
    } else {
      var init, p := order[..|order| - 1], order[|order| - 1];
      ListedNamesDistinct(r, init);
      assert order == init + [p];
      var (before, own) := (Listed(r, init), r.byPlugin[p]);
      forall i, j | 0 <= i < |before| && 0 <= j < |own| ensures before[i].name != own[j].name {
        assert before[i] in before;
        var k :| 0 <= k < |r.byPlugin[before[i].plugin]| && r.byPlugin[before[i].plugin][k] == before[i];
      }
    }
  }

  /** Two different pairs of namespace and name can spell the same full name; the second plugin is
      refused. */
  lemma {:induction false} SpellingsCollide(r: Registry, t: Contribution)
    requires Inv(r) && "a" in r.byPlugin && t.name == "c"
    requires exists i :: 0 <= i < |r.byPlugin["a"]| && r.byPlugin["a"][i].name == FullName("a", "b__c")
    ensures FullName("a", "b__c") == FullName("a__b", "c")
    ensures !Accepted(r, "a__b", [t])
  {
    assert "a__b__c" == FullName("a", "b__c") && "a__b__c" == FullName("a__b", "c");
    assert [t][0] == t && Taken(r, "a__b", FullName("a__b", t.name));
  }

  // ---------- a cached list is a fresh list ----------

  predicate Exposed(r: Registry, plugin: string) {
    if plugin in r.exposed then r.exposed[plugin] else true
  }

  function Shown(r: Registry, tools: seq<Tool>): seq<Tool> {
    if tools == [] then []
    else
      var (init, t) := (Shown(r, tools[..|tools| - 1]), tools[|tools| - 1]);
      if Exposed(r, t.plugin) then init + [t] else init
  }

  lemma {:induction false} ShownKeepsDistinct(r: Registry, tools: seq<Tool>)
    requires Distinct(tools)
    ensures Distinct(Shown(r, tools)) && forall t | t in Shown(r, tools) :: t in tools
  {
    if tools == [] {
    } else {
      var init, t := tools[..|tools| - 1], tools[|tools| - 1];
      ShownKeepsDistinct(r, init);
      assert tools == init + [t];
      var shown := Shown(r, init);
      forall i | 0 <= i < |shown| ensures shown[i].name != t.name {
        assert shown[i] in init;
      }
    }
  }

  /** What a client is offered: its own tools and, of every plugin that is not hidden from clients, all. */
  lemma {:induction false} OfferedExactly(r: Registry, t: Tool)
    requires Inv(r)
    ensures t in Offered(r) <==>
              || t in r.core
              || (&& t.plugin in r.byPlugin && t in r.byPlugin[t.plugin]
                  && !(t.plugin in r.exposed && !r.exposed[t.plugin]))
  {
    ShownAre(r, Listed(r, r.order), t);
    ListedAre(r, r.order, t);
  }

  /** The client's own tools come first. */
  lemma {:induction false} OwnToolsFirst(r: Registry)
    requires Inv(r)
    ensures r.core <= Offered(r) && Offered(r)[|r.core|..] == Shown(r, Listed(r, r.order))
  {
  }

  lemma {:induction false} ShownAre(r: Registry, tools: seq<Tool>, t: Tool)
    ensures t in Shown(r, tools) <==> t in tools && !(t.plugin in r.exposed && !r.exposed[t.plugin])
  {
    if tools == [] {
    } else {
      var (init, last) := (tools[..|tools| - 1], tools[|tools| - 1]);
      ShownAre(r, init, t);
      assert tools == init + [last];
    }
  }

  lemma {:induction false} ListedAre(r: Registry, order: seq<string>, t: Tool)
    requires Inv(r) && forall p | p in order :: p in r.byPlugin
    ensures t in Listed(r, order) <==> t.plugin in order && t in r.byPlugin[t.plugin]
  {
    if order == [] {
    } else {
      var (init, p) := (order[..|order| - 1], order[|order| - 1]);
      ListedAre(r, init, t);
      assert order == init + [p];
      if t in r.byPlugin[p] {
        var i :| 0 <= i < |r.byPlugin[p]| && r.byPlugin[p][i] == t;
      }
    }
  }

  /** Tools are listed plugin by plugin in the plugins' order, each plugin's in its own, and what is shown
      keeps that order. */
  lemma {:induction false} ListedInOrder(r: Registry, a: seq<string>, b: seq<string>)
    requires (forall p | p in a :: p in r.byPlugin) && forall p | p in b :: p in r.byPlugin
    ensures Listed(r, a + b) == Listed(r, a) + Listed(r, b)
    ensures Shown(r, Listed(r, a + b)) == Shown(r, Listed(r, a)) + Shown(r, Listed(r, b))
  {
    ListingSplits(r, a, b);
    ShownInOrder(r, Listed(r, a), Listed(r, b));
  }

  lemma {:induction false} ListingSplits(r: Registry, a: seq<string>, b: seq<string>)
    requires (forall p | p in a :: p in r.byPlugin) && forall p | p in b :: p in r.byPlugin
    ensures Listed(r, a + b) == Listed(r, a) + Listed(r, b)
  {
    if b == [] {
      assert a + b == a;
    } else {
      var (init, p) := (b[..|b| - 1], b[|b| - 1]);
      assert (a + b)[..|a + b| - 1] == a + init && (a + b)[|a + b| - 1] == p;
      ListingSplits(r, a, init);
      assert Listed(r, a) + (Listed(r, init) + r.byPlugin[p]) == Listed(r, a) + Listed(r, init) + r.byPlugin[p];
    }
  }

  lemma {:induction false} OnePluginListed(r: Registry, p: string)
    requires p in r.byPlugin
    ensures Listed(r, [p]) == r.byPlugin[p]
  {
    assert [p][..0] == [] && Listed(r, []) == [];
  }

  lemma {:induction false} ShownInOrder(r: Registry, a: seq<Tool>, b: seq<Tool>)
    ensures Shown(r, a + b) == Shown(r, a) + Shown(r, b)
  {
    if b == [] {
      assert a + b == a;
    } else {
      var init := b[..|b| - 1];
      assert (a + b)[..|a + b| - 1] == a + init;
      ShownInOrder(r, a, init);
    }
  }

  /** The names a client is offered are distinct, the client's own tools included. */
  lemma {:induction false} OfferedNamesDistinct(r: Registry)
    requires Inv(r)
    ensures Distinct(Offered(r))
  {
    ListedNamesDistinct(r, r.order);
    ShownKeepsDistinct(r, Listed(r, r.order));
    var shown := Shown(r, Listed(r, r.order));
    forall i, j | 0 <= i < |r.core| && 0 <= j < |shown| ensures r.core[i].name != shown[j].name {
      var t := shown[j];
      assert t in Listed(r, r.order);
      var k :| 0 <= k < |r.byPlugin[t.plugin]| && r.byPlugin[t.plugin][k] == t;
      assert Qualified(t.name);
    }
  }

  /** The tools a client would be offered if its list were built now. */
  ghost function Offered(r: Registry): seq<Tool>
    requires Inv(r)
  {
    r.core + Shown(r, Listed(r, r.order))
  }

  datatype Event =
    | Register(plugin: string, tools: seq<Contribution>) | Clear(plugin: string) | SetExposed(plugin: string, on: bool)
    | Ask(client: string, name: string) | Close(client: string)

  ghost function Asked(w: World, client: string, name: string): Client
    requires Inv(w.registry)
  {
    var known := client in w.clients;
    var called := if name != "" then name else if known then w.clients[client].name else "";
    if known && w.clients[client].version == w.registry.version then w.clients[client].(name := called)
    else Client(called, Offered(w.registry), w.registry.version)
  }

  ghost function Step(w: World, e: Event): World
    requires Inv(w.registry)
  {
    match e
    case Register(p, tools) =>
      if Accepted(w.registry, p, tools) then w.(registry := Registered(w.registry, p, tools)) else w
    case Clear(p) => w.(registry := Cleared(w.registry, p))
    case SetExposed(p, on) =>
      w.(registry := w.registry.(exposed := w.registry.exposed[p := on], version := w.registry.version + 1))
    case Ask(c, name) => w.(clients := w.clients[c := Asked(w, c, name)])
    case Close(c) => w.(clients := w.clients - {c})
  }

  /** A list cached under the present version is the list one would build now. */
  ghost predicate Current(w: World) {
    Inv(w.registry) &&
    forall c | c in w.clients ::
      && w.clients[c].version <= w.registry.version
      && (w.clients[c].version == w.registry.version ==> w.clients[c].tools == Offered(w.registry))
  }

  lemma {:induction false} StepKeepsCurrent(w: World, e: Event)
    requires Current(w)
    ensures Current(Step(w, e))
  {
    match e
    case Register(p, tools) => if Accepted(w.registry, p, tools) { RegisteringKeepsCurrent(w, p, tools); }
    case Clear(p) => ClearingKeepsCurrent(w, p);
    case _ =>
  }

  lemma {:induction false} RegisteringKeepsCurrent(w: World, plugin: string, tools: seq<Contribution>)
    requires Current(w) && Accepted(w.registry, plugin, tools)
    ensures Current(w.(registry := Registered(w.registry, plugin, tools)))
  {
    RegisteringKeepsNames(w.registry, plugin, tools);
  }

  lemma {:induction false} ClearingKeepsCurrent(w: World, plugin: string)
    requires Current(w)
    ensures Current(w.(registry := Cleared(w.registry, plugin)))
  {
    ClearingKeepsNames(w.registry, plugin);
  }

  ghost function Run(core: seq<Tool>, es: seq<Event>): (w: World)
    requires OwnTools(core)
    ensures Current(w)
  {
    if es == [] then World(Registry([], map[], map[], 0, core), map[])
    else
      var w := Run(core, es[..|es| - 1]);
      StepKeepsCurrent(w, es[|es| - 1]);
      Step(w, es[|es| - 1])
  }

  /** Over every run: whatever a client is answered with equals a list built afresh, and its names are
      distinct. */
  lemma {:induction false} AnswersAreFresh(core: seq<Tool>, es: seq<Event>, client: string, name: string)
    requires OwnTools(core)
    ensures var w := Run(core, es);
            Asked(w, client, name).tools == Offered(w.registry) && Distinct(Asked(w, client, name).tools)
  {
    OfferedNamesDistinct(Run(core, es).registry);
  }

  /** The name a client last gave since it last closed, if it gave any. */
  function LastName(es: seq<Event>, client: string): string {
    if es == [] then ""
    else
      match es[|es| - 1]
      case Ask(c, name) => if c == client && name != "" then name else LastName(es[..|es| - 1], client)
      case Close(c) => if c == client then "" else LastName(es[..|es| - 1], client)
      case _ => LastName(es[..|es| - 1], client)
  }

  /** Over every run a client goes by that name. */
  lemma {:induction false} ClientsKeepTheirName(core: seq<Tool>, es: seq<Event>, client: string)
    requires OwnTools(core)
    ensures var w := Run(core, es);
            if client in w.clients then w.clients[client].name == LastName(es, client) else LastName(es, client) == ""
  {
    if es == [] {
    } else {
      ClientsKeepTheirName(core, es[..|es| - 1], client);
      StepNames(Run(core, es[..|es| - 1]), es[|es| - 1], client);
    }
  }

  lemma {:induction false} StepNames(w: World, e: Event, client: string)
    requires Inv(w.registry)
    ensures var w' := Step(w, e);
            && (client in w'.clients <==>
                  if e.Ask? && e.client == client then true
                  else if e.Close? && e.client == client then false else client in w.clients)
            && (client in w'.clients ==>
                  w'.clients[client].name ==
                  if e.Ask? && e.client == client && (e.name != "" || client !in w.clients) then e.name
                  else w.clients[client].name)
  {
  }
}
