/** `build_current_graph` (migrate_sql/graph.py:70-90): the to-state graph
    read from the `sql_items` lists the installed apps declare. */
module CurrentGraph {
  import opened Base
  import opened Config
  import opened StateGraph

  /** An installed app and the `sql_items` of its SQL config module, or `None`
      when that module or its list cannot be imported (the app is skipped). */
  datatype AppConfig = AppConfig(app: string, items: Option<seq<SqlItem>>)

  /** One item as declared by its app, under the key `(app, item.name)`. */
  datatype Declaration = Declaration(key: Key, item: SqlItem)

  /** The declarations in the order the loops of lines 78-88 visit them: app by
      app, and within an app in list order. */
  function Declarations(apps: seq<AppConfig>): (ds: seq<Declaration>)
    ensures forall d | d in ds :: exists a | a in apps :: a.items.Some? && d.item in a.items.value && d.key == Key(a.app, d.item.name)
    decreases |apps|
  {
    if apps == [] then []
    else
      var a := apps[0];
      var here := if a.items.Some? then
        seq(|a.items.value|, i requires 0 <= i < |a.items.value| => Declaration(Key(a.app, a.items.value[i].name), a.items.value[i]))
      else [];
      assert forall d | d in here :: a.items.Some? && d.item in a.items.value && d.key == Key(a.app, d.item.name);
      here + Declarations(apps[1..])
  }

  /** Every item of every app that loaded is declared. */
  lemma {:induction false} DeclarationsComplete(apps: seq<AppConfig>, a: AppConfig, item: SqlItem)
    requires a in apps && a.items.Some? && item in a.items.value
    ensures Declaration(Key(a.app, item.name), item) in Declarations(apps)
    decreases |apps|
  {
    if apps[0] != a {
      DeclarationsComplete(apps[1..], a, item);
    } else {
      var i :| 0 <= i < |a.items.value| && a.items.value[i] == item;
      var here := seq(|a.items.value|, i requires 0 <= i < |a.items.value| => Declaration(Key(a.app, a.items.value[i].name), a.items.value[i]));
      assert here[i] == Declaration(Key(a.app, item.name), item);
      assert Declarations(apps) == here + Declarations(apps[1..]);
    }
  }

  /** The keys declared. */
  function DeclaredKeys(ds: seq<Declaration>): set<Key> {
    set d | d in ds :: d.key
  }

  /** The parents registered for `k`: every dependency listed by any
      declaration of `k`, redeclarations included. */
  function Registered(ds: seq<Declaration>, k: Key): set<Key> {
    set i, p | 0 <= i < |ds| && ds[i].key == k && p in ds[i].item.dependencies :: p
  }

  /** Lines 87-88: registering each listed dependency of `child`. */
  function RegisterAll(g: Graph, child: Key, deps: seq<Key>): (r: Graph)
    ensures r.nodes == g.nodes && r.nodeMap == g.nodeMap
    ensures r.dependencies.Keys == g.dependencies.Keys + (if deps == [] then {} else {child})
    ensures LazyDeps(r, child) == LazyDeps(g, child) + (set p | p in deps)
    ensures forall c | c != child :: LazyDeps(r, c) == LazyDeps(g, c)
    decreases |deps|
  {
    if deps == [] then g
    else
      var r := RegisterAll(AddLazyDependency(g, child, deps[0]), child, deps[1..]);
      assert (set p | p in deps) == {deps[0]} + (set p | p in deps[1..]);
      r
  }

  /** Lines 85-88: one declaration adds its node and registers its
      dependencies. */
  function Declare(g: Graph, d: Declaration): Graph {
    RegisterAll(AddNode(g, d.key, d.item), d.key, d.item.dependencies)
  }

  /** Adding a last declaration adds its dependencies to its key's. */
  lemma RegisteredSnoc(ds: seq<Declaration>, d: Declaration, k: Key)
    ensures Registered(ds + [d], k) == Registered(ds, k) + (if d.key == k then set p | p in d.item.dependencies else {})
  {
    var ds' := ds + [d];
    forall p | p in Registered(ds', k) ensures p in Registered(ds, k) || (d.key == k && p in d.item.dependencies) {
      var i :| 0 <= i < |ds'| && ds'[i].key == k && p in ds'[i].item.dependencies;
      if i < |ds| {
        assert ds[i] == ds'[i];
      }
    }
    forall p | p in Registered(ds, k) ensures p in Registered(ds', k) {
      var i :| 0 <= i < |ds| && ds[i].key == k && p in ds[i].item.dependencies;
      assert ds'[i] == ds[i];
    }
    if d.key == k {
      forall p | p in d.item.dependencies ensures p in Registered(ds', k) {
        assert ds'[|ds|] == d;
      }
    }
  }

  /** The graph before `build_graph`: one fresh node per declared key, and for
      every key the union of the dependencies its declarations list; only
      declared keys have an entry. */
  function DeclareAll(ds: seq<Declaration>): (g: Graph)
    ensures ConsistentKeys(g) && g.nodes.Keys == DeclaredKeys(ds)
    ensures forall k | k in g.nodeMap :: g.nodeMap[k] == Fresh
    ensures forall k :: LazyDeps(g, k) == Registered(ds, k)
    ensures g.dependencies.Keys <= g.nodes.Keys
    decreases |ds|
  {
    if ds == [] then EmptyGraph
    else
      var prev := ds[..|ds| - 1];
      var d := ds[|ds| - 1];
      assert ds == prev + [d];
      var g := Declare(DeclareAll(prev), d);
      forall k ensures LazyDeps(g, k) == Registered(ds, k) {
        RegisteredSnoc(prev, d, k);
      }
      assert DeclaredKeys(ds) == DeclaredKeys(prev) + {d.key};
      g
  }

  /** Line 85: a key redeclared later is overwritten; the last declaration
      of a key supplies its item. */
  lemma {:induction false} LastDeclarationWins(ds: seq<Declaration>, i: nat)
    requires i < |ds| && forall j | i < j < |ds| :: ds[j].key != ds[i].key
    ensures ds[i].key in DeclareAll(ds).nodes && DeclareAll(ds).nodes[ds[i].key] == ds[i].item
    decreases |ds|
  {
    var prev := ds[..|ds| - 1];
    DeclareAllSnoc(ds);
    if i < |ds| - 1 {
      LastDeclarationWins(prev, i);
      assert prev[i] == ds[i];
    }
  }

  /** Every key's item is that of its last declaration. */
  lemma LastDeclarationsWin(ds: seq<Declaration>)
    ensures var g := DeclareAll(ds);
      forall i | 0 <= i < |ds| && (forall j | i < j < |ds| :: ds[j].key != ds[i].key) ::
        ds[i].key in g.nodes && g.nodes[ds[i].key] == ds[i].item
  {
    forall i | 0 <= i < |ds| && (forall j | i < j < |ds| :: ds[j].key != ds[i].key)
      ensures ds[i].key in DeclareAll(ds).nodes && DeclareAll(ds).nodes[ds[i].key] == ds[i].item
    {
      LastDeclarationWins(ds, i);
    }
  }

  /** The items after one more declaration. */
  lemma DeclareAllSnoc(ds: seq<Declaration>)
    requires ds != []
    ensures DeclareAll(ds).nodes == DeclareAll(ds[..|ds| - 1]).nodes[ds[|ds| - 1].key := ds[|ds| - 1].item]
  {
  }

  /** The registered dependencies that do not name a declared item. */
  function Unresolved(ds: seq<Declaration>): set<Key> {
    set i, p | 0 <= i < |ds| && p in ds[i].item.dependencies && p !in DeclaredKeys(ds) :: p
  }

  /** What `build_current_graph` promises about the declarations `ds`: it
      succeeds exactly when every registered dependency is declared; then each
      declared key is a node, carries the item of its last declaration, and
      its parents and children are the registered dependencies in each
      direction; otherwise the error names an undeclared dependency and the
      app of an item that asked for it. */
  ghost predicate Describes(ds: seq<Declaration>, r: Result<Graph, GraphError>) {
    (r.Ok? <==> Unresolved(ds) == {}) &&
    (r.Ok? ==> (ConsistentKeys(r.value) && r.value.nodes.Keys == DeclaredKeys(ds) &&
             forall k | k in r.value.nodeMap ::
               r.value.nodeMap[k].parents == Registered(ds, k) &&
               r.value.nodeMap[k].children == (set c | c in DeclaredKeys(ds) && k in Registered(ds, c)))) &&
    (r.Ok? ==> forall i | 0 <= i < |ds| && (forall j | i < j < |ds| :: ds[j].key != ds[i].key) ::
               ds[i].key in r.value.nodes && r.value.nodes[ds[i].key] == ds[i].item) &&
    (r.Err? ==> (r.error.MissingParent? && r.error.missing in Unresolved(ds) &&
              exists i | 0 <= i < |ds| :: r.error.missing in ds[i].item.dependencies && r.error.app == ds[i].key.app))
  }

  /** `build_current_graph` over the loaded apps; an undeclared dependency
      is Django's `NodeNotFoundError`. */
  method BuildCurrentGraph(apps: seq<AppConfig>) returns (r: Result<Graph, GraphError>)
    ensures Describes(Declarations(apps), r)
  {
    var ds := Declarations(apps);
    var g := DeclareAll(ds);
    r := BuildGraph(g);
    BuildOutcome(ds, g, r);
  }

  /** What `build_graph` makes of the declared graph, in terms of the
      declarations. */
  lemma BuildOutcome(ds: seq<Declaration>, g: Graph, r: Result<Graph, GraphError>)
    requires g == DeclareAll(ds)
    requires r.Ok? <==> Resolvable(g)
    requires r.Ok? ==> r.value == Resolved(g)
    requires r.Err? ==> Dangling(g, r.error)
    ensures Describes(ds, r)
  {
    UnresolvedIffNotResolvable(ds, g);
    if r.Ok? {
      assert r.value.nodes == g.nodes;
      ResolvedEdges(ds, g);
      LastDeclarationsWin(ds);
    } else {
      MissingParentNamesDeclaration(ds, g, r.error);
    }
  }

  /** Resolving the declared graph gives each node the dependencies registered
      for it as parents and the items registering it as children. */
  lemma ResolvedEdges(ds: seq<Declaration>, g: Graph)
    requires g == DeclareAll(ds)
    ensures var h := Resolved(g);
      ConsistentKeys(h) && h.nodes.Keys == DeclaredKeys(ds) &&
      forall k | k in h.nodeMap ::
        h.nodeMap[k].parents == Registered(ds, k) &&
        h.nodeMap[k].children == (set c | c in DeclaredKeys(ds) && k in Registered(ds, c))
  {
    var h := Resolved(g);
    forall k | k in h.nodeMap
      ensures h.nodeMap[k].parents == Registered(ds, k)
      ensures h.nodeMap[k].children == (set c | c in DeclaredKeys(ds) && k in Registered(ds, c))
    {
      NodeEdges(ds, g, k);
    }
  }

  /** One resolved node: its parents are the dependencies registered for it,
      its children the declared items registering it. */
  lemma NodeEdges(ds: seq<Declaration>, g: Graph, k: Key)
    requires g == DeclareAll(ds) && k in Resolved(g).nodeMap
    ensures Resolved(g).nodeMap[k].parents == Registered(ds, k)
    ensures Resolved(g).nodeMap[k].children == (set c | c in DeclaredKeys(ds) && k in Registered(ds, c))
  {
    assert Resolved(g).nodeMap[k] == Node(g.nodeMap[k].parents + LazyDeps(g, k), g.nodeMap[k].children + LazyChildren(g, k));
    ChildrenRegistering(ds, g, k);
  }

  lemma UnresolvedIffNotResolvable(ds: seq<Declaration>, g: Graph)
    requires g == DeclareAll(ds)
    ensures Resolvable(g) <==> Unresolved(ds) == {}
  {
    if !Resolvable(g) {
      var c, p :| c in g.dependencies && p in g.dependencies[c] && p !in g.nodes;
      assert p in LazyDeps(g, c);
      var i :| 0 <= i < |ds| && ds[i].key == c && p in ds[i].item.dependencies;
      assert p in Unresolved(ds);
    }
    if Unresolved(ds) != {} {
      var p :| p in Unresolved(ds);
      var i :| 0 <= i < |ds| && p in ds[i].item.dependencies && p !in DeclaredKeys(ds);
      assert p in Registered(ds, ds[i].key);
      assert ds[i].key in g.dependencies;
    }
  }

  lemma ChildrenRegistering(ds: seq<Declaration>, g: Graph, k: Key)
    requires g == DeclareAll(ds)
    ensures LazyChildren(g, k) == (set c | c in DeclaredKeys(ds) && k in Registered(ds, c))
  {
    forall c | c in DeclaredKeys(ds) && k in Registered(ds, c) ensures c in LazyChildren(g, k) {
      assert k in LazyDeps(g, c);
    }
  }

  lemma MissingParentNamesDeclaration(ds: seq<Declaration>, g: Graph, e: GraphError)
    requires g == DeclareAll(ds) && Dangling(g, e)
    ensures e.MissingParent? && e.missing in Unresolved(ds)
    ensures exists i | 0 <= i < |ds| :: e.missing in ds[i].item.dependencies && e.app == ds[i].key.app
  {
    var c :| c in g.dependencies && c in g.nodes && e.missing in g.dependencies[c] && e.app == c.app;
    assert e.missing in LazyDeps(g, c);
    var i :| 0 <= i < |ds| && ds[i].key == c && e.missing in ds[i].item.dependencies;
    assert e.missing in Unresolved(ds);
  }
}
