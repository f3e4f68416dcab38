/** The SQL state graph (`SQLStateGraph` in migrate_sql/graph.py): items keyed by
    `(app, name)`, one graph node per item, and dependencies that are first
    registered lazily and then resolved into parent/child edges. */
module StateGraph {
  import opened Base
  import opened Config

  /** A graph node: the keys of its parents (what it depends on) and of its
      children (what depends on it). */
  datatype Node = Node(parents: set<Key>, children: set<Key>)

  /** A node without edges, as `Node(key)` creates it. */
  const Fresh: Node := Node({}, {})

  /** `nodes` maps keys to items, `nodeMap` keys to graph nodes, and
      `dependencies` each child to the parents registered for it (the
      `defaultdict(set)` of the source). */
  datatype Graph = Graph(
    nodes: map<Key, SqlItem>,
    nodeMap: map<Key, Node>,
    dependencies: map<Key, set<Key>>)

  const EmptyGraph: Graph := Graph(map[], map[], map[])

  /** Every item has a node and every node an item. */
  predicate ConsistentKeys(g: Graph) {
    g.nodes.Keys == g.nodeMap.Keys
  }

  /** Reading `dependencies[child]` from the defaultdict: absent means empty. */
  function LazyDeps(g: Graph, child: Key): set<Key> {
    if child in g.dependencies then g.dependencies[child] else {}
  }

  datatype GraphError =
    | KeyError(missing: Key)                    // set.remove of an absent parent
    | MissingChild(app: string, missing: Key)   // NodeNotFoundError for a child
    | MissingParent(app: string, missing: Key)  // NodeNotFoundError for a parent

  /** `add_node`: maps the key to the item and to a fresh node, overwriting any
      previous entry; nothing else changes. */
  function AddNode(g: Graph, key: Key, item: SqlItem): (r: Graph)
    ensures r.nodes.Keys == g.nodes.Keys + {key} && r.nodeMap.Keys == g.nodeMap.Keys + {key}
    ensures r.nodes[key] == item && r.nodeMap[key] == Fresh
    ensures forall k | k in g.nodes && k != key :: r.nodes[k] == g.nodes[k]
    ensures forall k | k in g.nodeMap && k != key :: r.nodeMap[k] == g.nodeMap[k]
    ensures r.dependencies == g.dependencies
    ensures ConsistentKeys(g) ==> ConsistentKeys(r)
  {
    g.(nodes := g.nodes[key := item], nodeMap := g.nodeMap[key := Fresh])
  }

  /** `remove_node`: drops the key from both maps when it is in both, and
      otherwise leaves the graph as it is. Registered dependencies stay. */
  function RemoveNode(g: Graph, key: Key): (r: Graph)
    ensures key in g.nodes && key in g.nodeMap ==> key !in r.nodes && key !in r.nodeMap
    ensures !(key in g.nodes && key in g.nodeMap) ==> r == g
    ensures forall k | k != key :: (k in r.nodes <==> k in g.nodes) && (k in r.nodeMap <==> k in g.nodeMap)
    ensures forall k | k in r.nodes :: r.nodes[k] == g.nodes[k]
    ensures forall k | k in r.nodeMap :: r.nodeMap[k] == g.nodeMap[k]
    ensures r.dependencies == g.dependencies
    ensures ConsistentKeys(g) ==> ConsistentKeys(r)
  {
    if key in g.nodes && key in g.nodeMap then
      g.(nodes := g.nodes - {key}, nodeMap := g.nodeMap - {key})
    else
      g
  }

  /** Removing a node just added leaves the graph as removing it from the
      original would. */
  lemma AddThenRemove(g: Graph, key: Key, item: SqlItem)
    requires ConsistentKeys(g)
    ensures RemoveNode(AddNode(g, key, item), key) == RemoveNode(g, key)
  {
    if key in g.nodes {
      assert g.nodes[key := item] - {key} == g.nodes - {key};
      assert g.nodeMap[key := Fresh] - {key} == g.nodeMap - {key};
    } else {
      assert g.nodes[key := item] - {key} == g.nodes;
      assert g.nodeMap[key := Fresh] - {key} == g.nodeMap;
    }
  }

  /** `add_lazy_dependency`: adds `parent` to the set registered for `child`;
      the nodes are not touched. */
  function AddLazyDependency(g: Graph, child: Key, parent: Key): (r: Graph)
    ensures r.nodes == g.nodes && r.nodeMap == g.nodeMap
    ensures r.dependencies.Keys == g.dependencies.Keys + {child}
    ensures LazyDeps(r, child) == LazyDeps(g, child) + {parent}
    ensures forall c | c != child :: LazyDeps(r, c) == LazyDeps(g, c)
  {
    g.(dependencies := g.dependencies[child := LazyDeps(g, child) + {parent}])
  }

  /** Registering the same dependency twice is registering it once. */
  lemma AddLazyDependencyIdempotent(g: Graph, child: Key, parent: Key)
    ensures AddLazyDependency(AddLazyDependency(g, child, parent), child, parent)
         == AddLazyDependency(g, child, parent)
  {
  }

  /** `remove_lazy_dependency`: removes `parent` from the set registered for
      `child`, raising when it is not there. */
  function RemoveLazyDependency(g: Graph, child: Key, parent: Key): (r: Result<Graph, GraphError>)
    ensures r.Ok? <==> parent in LazyDeps(g, child)
    ensures r.Err? ==> r.error == KeyError(parent)
    ensures r.Ok? ==> r.value.nodes == g.nodes && r.value.nodeMap == g.nodeMap
    ensures r.Ok? ==> r.value.dependencies.Keys == g.dependencies.Keys
    ensures r.Ok? ==> LazyDeps(r.value, child) == LazyDeps(g, child) - {parent}
    ensures r.Ok? ==> forall c | c != child :: LazyDeps(r.value, c) == LazyDeps(g, c)
  {
    if parent in LazyDeps(g, child) then
      Ok(g.(dependencies := g.dependencies[child := LazyDeps(g, child) - {parent}]))
    else
      Err(KeyError(parent))
  }

  /** Removing a dependency just registered restores the graph, provided the
      child already had an entry that did not hold that parent. */
  lemma RemoveUndoesAdd(g: Graph, child: Key, parent: Key)
    requires child in g.dependencies && parent !in g.dependencies[child]
    ensures RemoveLazyDependency(AddLazyDependency(g, child, parent), child, parent) == Ok(g)
  {
    var r := RemoveLazyDependency(AddLazyDependency(g, child, parent), child, parent).value;
    assert r.dependencies == g.dependencies;
  }

  /** `remove_lazy_for_child`: drops the child's entry; a no-op when absent. */
  function RemoveLazyForChild(g: Graph, child: Key): (r: Graph)
    ensures r.nodes == g.nodes && r.nodeMap == g.nodeMap
    ensures child !in r.dependencies
    ensures r.dependencies.Keys == g.dependencies.Keys - {child}
    ensures forall c | c in r.dependencies :: r.dependencies[c] == g.dependencies[c]
    ensures child !in g.dependencies ==> r == g
  {
    g.(dependencies := g.dependencies - {child})
  }

  /** Read through the defaultdict, the dropped child has no dependency left
      and every other child keeps its own. */
  lemma RemoveLazyForChildForgets(g: Graph, child: Key)
    ensures LazyDeps(RemoveLazyForChild(g, child), child) == {}
    ensures forall c | c != child :: LazyDeps(RemoveLazyForChild(g, child), c) == LazyDeps(g, c)
  {
  }

  /** Dependencies registered for a child leave no trace once its entry is
      dropped. */
  lemma RemoveLazyForChildAfterAdd(g: Graph, child: Key, parent: Key)
    ensures RemoveLazyForChild(AddLazyDependency(g, child, parent), child) == RemoveLazyForChild(g, child)
  {
    var a, b := RemoveLazyForChild(AddLazyDependency(g, child, parent), child), RemoveLazyForChild(g, child);
    assert a.dependencies == b.dependencies;
  }

  /** Dropping a child's entry twice is dropping it once. */
  lemma RemoveLazyForChildIdempotent(g: Graph, child: Key)
    ensures RemoveLazyForChild(RemoveLazyForChild(g, child), child) == RemoveLazyForChild(g, child)
  {
  }

  /** Every child with an entry, and every parent registered for it, is a node
      (an entry with an empty set still needs its child to be a node). */
  predicate Resolvable(g: Graph) {
    forall c | c in g.dependencies :: c in g.nodes && g.dependencies[c] <= g.nodes.Keys
  }

  /** The children registered for `parent`. */
  function LazyChildren(g: Graph, parent: Key): set<Key> {
    set c | c in g.dependencies && parent in g.dependencies[c]
  }

  /** The graph after resolution: every registered `(child, parent)` pair added
      as an edge in both directions, to whatever edges the nodes had. */
  function Resolved(g: Graph): Graph {
    g.(nodeMap := map k | k in g.nodeMap ::
         Node(g.nodeMap[k].parents + LazyDeps(g, k), g.nodeMap[k].children + LazyChildren(g, k)))
  }

  /** The error names a child entry that is not a node, or a parent registered
      for a node child that is not a node; the app is the child's. */
  ghost predicate Dangling(g: Graph, e: GraphError) {
    match e
    case KeyError(_) => false
    case MissingChild(app, k) => k in g.dependencies && k !in g.nodes && app == k.app
    case MissingParent(app, k) =>
      k !in g.nodes && exists c | c in g.dependencies :: c in g.nodes && k in g.dependencies[c] && app == c.app
  }

  /** Parents registered for `k` whose entry has been processed. */
  ghost function DoneParents(g: Graph, todo: set<Key>, k: Key): set<Key> {
    if k in g.dependencies && k !in todo then g.dependencies[k] else {}
  }

  /** Processed children that registered `k` as a parent. */
  ghost function DoneChildren(g: Graph, todo: set<Key>, k: Key): set<Key> {
    set c | c in g.dependencies && c !in todo && k in g.dependencies[c]
  }

  /** The nodes once the entries outside `todo` are resolved and, of the entry
      of `child`, the parents in `done` are linked. */
  ghost function Snapshot(g: Graph, todo: set<Key>, child: Key, done: set<Key>): map<Key, Node> {
    map k | k in g.nodeMap :: SnapshotNode(g, todo, child, done, k)
  }

  /** Adds the edge between `child` and `parent` to both nodes, as `add_parent`
      and `add_child` do. */
  function Link(m: map<Key, Node>, child: Key, parent: Key): (r: map<Key, Node>)
    requires child in m && parent in m
    ensures r.Keys == m.Keys
  {
    var m1 := m[child := m[child].(parents := m[child].parents + {parent})];
    m1[parent := m1[parent].(children := m1[parent].children + {child})]
  }

  /** The node of `k` in a snapshot. */
  ghost function SnapshotNode(g: Graph, todo: set<Key>, child: Key, done: set<Key>, k: Key): Node
    requires k in g.nodeMap
  {
    Node(
      g.nodeMap[k].parents + DoneParents(g, todo, k) + (if k == child then done else {}),
      g.nodeMap[k].children + DoneChildren(g, todo, k) + (if k in done then {child} else {}))
  }

  /** Linking one more parent changes the node of `k` by that edge only. */
  lemma LinkStepAt(g: Graph, todo: set<Key>, child: Key, done: set<Key>, parent: Key, k: Key)
    requires child in g.nodeMap && parent in g.nodeMap && k in g.nodeMap
    ensures Link(Snapshot(g, todo, child, done), child, parent)[k] == SnapshotNode(g, todo, child, done + {parent}, k)
  {
    var before := SnapshotNode(g, todo, child, done, k);
    assert Snapshot(g, todo, child, done)[k] == before;
    var m2 := Link(Snapshot(g, todo, child, done), child, parent);
    if k == child && k == parent {
      assert m2[k] == Node(before.parents + {parent}, before.children + {child});
    } else if k == child {
      assert m2[k] == Node(before.parents + {parent}, before.children);
    } else if k == parent {
      assert m2[k] == Node(before.parents, before.children + {child});
    } else {
      assert m2[k] == before;
    }
  }

  /** Linking one more parent both ways advances the snapshot by it. */
  lemma LinkStep(g: Graph, todo: set<Key>, child: Key, done: set<Key>, parent: Key)
    requires child in g.nodeMap && parent in g.nodeMap
    ensures Link(Snapshot(g, todo, child, done), child, parent) == Snapshot(g, todo, child, done + {parent})
  {
    var m2, after := Link(Snapshot(g, todo, child, done), child, parent), Snapshot(g, todo, child, done + {parent});
    forall k | k in m2 ensures m2[k] == after[k] {
      LinkStepAt(g, todo, child, done, parent, k);
    }
  }

  /** Nothing linked yet for a child: the snapshot does not depend on which. */
  lemma SnapshotStart(g: Graph, todo: set<Key>, child: Key, other: Key)
    ensures Snapshot(g, todo, child, {}) == Snapshot(g, todo, other, {})
  {
  }

  /** Before any entry is processed the snapshot is the unresolved node map. */
  lemma SnapshotInitial(g: Graph, child: Key)
    ensures Snapshot(g, g.dependencies.Keys, child, {}) == g.nodeMap
  {
    var m := Snapshot(g, g.dependencies.Keys, child, {});
    forall k | k in m ensures m[k] == g.nodeMap[k] {
      assert DoneChildren(g, g.dependencies.Keys, k) == {};
    }
  }

  /** Marking the child processed moves its linked parents into the processed part. */
  lemma SnapshotDoneAt(g: Graph, todo: set<Key>, child: Key, k: Key)
    requires child in todo && todo <= g.dependencies.Keys && k in g.nodeMap
    ensures SnapshotNode(g, todo, child, g.dependencies[child], k) == SnapshotNode(g, todo - {child}, child, {}, k)
  {
    var deps := g.dependencies[child];
    assert DoneParents(g, todo - {child}, k) == DoneParents(g, todo, k) + (if k == child then deps else {});
    assert DoneChildren(g, todo - {child}, k) == DoneChildren(g, todo, k) + (if k in deps then {child} else {});
  }

  /** Once every parent of the child is linked, its entry counts as processed. */
  lemma SnapshotDone(g: Graph, todo: set<Key>, child: Key)
    requires child in todo && todo <= g.dependencies.Keys
    ensures Snapshot(g, todo, child, g.dependencies[child]) == Snapshot(g, todo - {child}, child, {})
  {
    var m, m' := Snapshot(g, todo, child, g.dependencies[child]), Snapshot(g, todo - {child}, child, {});
    forall k | k in m ensures m[k] == m'[k] {
      SnapshotDoneAt(g, todo, child, k);
    }
  }

  /** With every entry processed, a node has all its registered edges. */
  lemma SnapshotCompleteAt(g: Graph, child: Key, k: Key)
    requires k in g.nodeMap
    ensures SnapshotNode(g, {}, child, {}, k) == Resolved(g).nodeMap[k]
  {
    assert DoneParents(g, {}, k) == LazyDeps(g, k);
    assert DoneChildren(g, {}, k) == LazyChildren(g, k);
  }

  /** With every entry processed, the snapshot is the resolved graph. */
  lemma SnapshotComplete(g: Graph, child: Key)
    ensures Snapshot(g, {}, child, {}) == Resolved(g).nodeMap
  {
    var m, m' := Snapshot(g, {}, child, {}), Resolved(g).nodeMap;
    forall k | k in m ensures m[k] == m'[k] {
      SnapshotCompleteAt(g, child, k);
    }
  }

  /** The inner loop of `build_graph` for one child, from the point where the
      parents in `done` are linked and those in `pending` are left: each, in
      set order, is checked and linked both ways. */
  method LinkRemaining(g: Graph, todo: set<Key>, child: Key, pending: set<Key>, ghost done: set<Key>,
                       nodeMap: map<Key, Node>)
    returns (r: Result<map<Key, Node>, GraphError>)
    requires ConsistentKeys(g)
    requires child in todo && todo <= g.dependencies.Keys && child in g.nodes
    requires done + pending == g.dependencies[child] && done !! pending && done <= g.nodes.Keys
    requires nodeMap == Snapshot(g, todo, child, done)
    ensures r.Ok? <==> pending <= g.nodes.Keys
    ensures r.Ok? ==> r.value == Snapshot(g, todo, child, g.dependencies[child])
    ensures r.Err? ==> Dangling(g, r.error)
    decreases pending
  {
    if pending == {} {
      assert done == g.dependencies[child];
      return Ok(nodeMap);
    }
    var parent :| parent in pending;
    if parent !in g.nodes {
      assert child in g.dependencies && child in g.nodes && parent in g.dependencies[child];
      return Err(MissingParent(child.app, parent));
    }
    LinkStep(g, todo, child, done, parent);
    r := LinkRemaining(g, todo, child, pending - {parent}, done + {parent}, Link(nodeMap, child, parent));
  }

  /** The inner loop of `build_graph` for one child. */
  method LinkParents(g: Graph, todo: set<Key>, child: Key, nodeMap: map<Key, Node>)
    returns (r: Result<map<Key, Node>, GraphError>)
    requires ConsistentKeys(g)
    requires child in todo && todo <= g.dependencies.Keys && child in g.nodes
    requires nodeMap == Snapshot(g, todo, child, {})
    ensures r.Ok? <==> g.dependencies[child] <= g.nodes.Keys
    ensures r.Ok? ==> r.value == Snapshot(g, todo, child, g.dependencies[child])
    ensures r.Err? ==> Dangling(g, r.error)
  {
    r := LinkRemaining(g, todo, child, g.dependencies[child], {}, nodeMap);
  }

  /** One entry of `build_graph`'s outer loop: the child must be a node, then
      its parents are linked. */
  method ResolveEntry(g: Graph, todo: set<Key>, child: Key, nodeMap: map<Key, Node>, ghost anyKey: Key)
    returns (r: Result<map<Key, Node>, GraphError>)
    requires ConsistentKeys(g)
    requires child in todo && todo <= g.dependencies.Keys
    requires nodeMap == Snapshot(g, todo, anyKey, {})
    ensures r.Ok? <==> child in g.nodes && g.dependencies[child] <= g.nodes.Keys
    ensures r.Ok? ==> r.value == Snapshot(g, todo - {child}, anyKey, {})
    ensures r.Err? ==> Dangling(g, r.error)
  {
    if child !in g.nodes {
      return Err(MissingChild(child.app, child));
    }
    SnapshotStart(g, todo, anyKey, child);
    r := LinkParents(g, todo, child, nodeMap);
    if r.Ok? {
      SnapshotDone(g, todo, child);
      SnapshotStart(g, todo - {child}, child, anyKey);
    }
  }

  /** The outer loop of `build_graph` from the point where the entries outside
      `todo` are resolved. */
  method ResolveRemaining(g: Graph, todo: set<Key>, nodeMap: map<Key, Node>, ghost anyKey: Key)
    returns (r: Result<Graph, GraphError>)
    requires ConsistentKeys(g)
    requires todo <= g.dependencies.Keys
    requires forall c | c in g.dependencies && c !in todo :: c in g.nodes && g.dependencies[c] <= g.nodes.Keys
    requires nodeMap == Snapshot(g, todo, anyKey, {})
    ensures r.Ok? <==> Resolvable(g)
    ensures r.Ok? ==> r.value == Resolved(g)
    ensures r.Err? ==> Dangling(g, r.error)
    decreases todo
  {
    if todo == {} {
      SnapshotComplete(g, anyKey);
      return Ok(Graph(g.nodes, nodeMap, g.dependencies));
    }
    var child :| child in todo;
    var step := ResolveEntry(g, todo, child, nodeMap, anyKey);
    if step.Err? {
      return Err(step.error);
    }
    r := ResolveRemaining(g, todo - {child}, step.value, anyKey);
  }

  /** `build_graph`: walks the registered entries in whatever order the dict
      yields them, raising on the first child or parent that is not a node and
      otherwise adding each pair as an edge in both directions. */
  method BuildGraph(g: Graph) returns (r: Result<Graph, GraphError>)
    requires ConsistentKeys(g)
    ensures r.Ok? <==> Resolvable(g)
    ensures r.Ok? ==> r.value == Resolved(g)
    ensures r.Err? ==> Dangling(g, r.error)
  {
    SnapshotInitial(g, Key("", ""));
    r := ResolveRemaining(g, g.dependencies.Keys, g.nodeMap, Key("", ""));
  }
}
