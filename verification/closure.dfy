/** Ancestry in a resolved SQL state graph. The source asks Django's graph
    `Node` for `ancestors()` and `descendants()` and drops the node itself from
    both lists; here both are the transitive closures of the parent and child
    edges, defined over a graph whose edges are acyclic. */
module Closure {
  import opened Base
  import opened StateGraph

  /** Edges stay among nodes and agree in both directions. */
  ghost predicate Symmetric(g: Graph) {
    (forall k, p | k in g.nodeMap && p in g.nodeMap[k].parents ::
       p in g.nodeMap && k in g.nodeMap[p].children) &&
    (forall k, c | k in g.nodeMap && c in g.nodeMap[k].children ::
       c in g.nodeMap && k in g.nodeMap[c].parents)
  }

  /** `rank` witnesses acyclicity: every parent ranks strictly below its child. */
  ghost predicate Ranked(g: Graph, rank: map<Key, nat>) {
    forall k | k in g.nodeMap ::
      k in rank && forall p | p in g.nodeMap[k].parents :: p in g.nodeMap && p in rank && rank[p] < rank[k]
  }

  /** A graph as `build_graph` leaves it: one node per item, symmetric edges, no cycle. */
  ghost predicate WellFormed(g: Graph, rank: map<Key, nat>) {
    ConsistentKeys(g) && Symmetric(g) && Ranked(g, rank)
  }

  /** The strict ancestors of `k`: its parents and, recursively, theirs. */
  function Ancestors(g: Graph, ghost rank: map<Key, nat>, k: Key): (r: set<Key>)
    requires Ranked(g, rank) && k in g.nodeMap
    ensures g.nodeMap[k].parents <= r
    ensures forall a | a in r :: a in g.nodeMap && a in rank && rank[a] < rank[k]
    decreases rank[k]
  {
    var ps := g.nodeMap[k].parents;
    ps + set p, a | p in ps && a in Ancestors(g, rank, p) :: a
  }

  /** The strict descendants of `k`: the nodes that have `k` as an ancestor. */
  ghost function Descendants(g: Graph, rank: map<Key, nat>, k: Key): set<Key>
    requires Ranked(g, rank)
  {
    set c | c in g.nodeMap && k in Ancestors(g, rank, c)
  }

  /** No node is its own ancestor. */
  lemma AncestorsIrreflexive(g: Graph, rank: map<Key, nat>, k: Key)
    requires Ranked(g, rank) && k in g.nodeMap
    ensures k !in Ancestors(g, rank, k)
  {
  }

  /** An ancestor of an ancestor is an ancestor. */
  lemma {:induction false} AncestorsTransitive(g: Graph, rank: map<Key, nat>, a: Key, b: Key, c: Key)
    requires Ranked(g, rank) && b in g.nodeMap && c in g.nodeMap
    requires a in Ancestors(g, rank, b) && b in Ancestors(g, rank, c)
    ensures a in Ancestors(g, rank, c)
    decreases rank[c]
  {
    if b !in g.nodeMap[c].parents {
      var p :| p in g.nodeMap[c].parents && b in Ancestors(g, rank, p);
      AncestorsTransitive(g, rank, a, b, p);
    }
  }

  /** `path` climbs parent edges from its first key to its last. */
  ghost predicate ParentPath(g: Graph, path: seq<Key>) {
    |path| >= 2 &&
    (forall i | 0 <= i < |path| :: path[i] in g.nodeMap) &&
    (forall i | 0 <= i < |path| - 1 :: path[i + 1] in g.nodeMap[path[i]].parents)
  }

  /** An ancestor is a parent or an ancestor of a parent. */
  lemma AncestorVia(g: Graph, rank: map<Key, nat>, k: Key, a: Key) returns (p: Key)
    requires Ranked(g, rank) && k in g.nodeMap && a in Ancestors(g, rank, k)
    ensures p in g.nodeMap[k].parents && (a == p || a in Ancestors(g, rank, p))
  {
    if a in g.nodeMap[k].parents {
      p := a;
    } else {
      p :| p in g.nodeMap[k].parents && a in Ancestors(g, rank, p);
    }
  }

  /** A parent edge followed by a parent path is a parent path. */
  lemma PrependParent(g: Graph, k: Key, tail: seq<Key>)
    requires ParentPath(g, tail) && k in g.nodeMap && tail[0] in g.nodeMap[k].parents
    ensures ParentPath(g, [k] + tail)
  {
    var path := [k] + tail;
    forall i | 0 <= i < |path| - 1 ensures path[i + 1] in g.nodeMap[path[i]].parents {
      if i > 0 {
        assert path[i] == tail[i - 1] && path[i + 1] == tail[i];
      }
    }
  }

  /** Every ancestor is reached by climbing parent edges. */
  lemma {:induction false} AncestorHasPath(g: Graph, rank: map<Key, nat>, k: Key, a: Key)
    returns (path: seq<Key>)
    requires Ranked(g, rank) && k in g.nodeMap && a in Ancestors(g, rank, k)
    ensures ParentPath(g, path) && path[0] == k && path[|path| - 1] == a
    decreases rank[k]
  {
    var p := AncestorVia(g, rank, k, a);
    if a == p {
      path := [k, a];
    } else {
      var tail := AncestorHasPath(g, rank, p, a);
      PrependParent(g, k, tail);
      path := [k] + tail;
    }
  }

  /** Climbing parent edges only ever reaches ancestors. */
  lemma {:induction false} PathReachesAncestor(g: Graph, rank: map<Key, nat>, path: seq<Key>)
    requires Ranked(g, rank) && ParentPath(g, path)
    ensures path[|path| - 1] in Ancestors(g, rank, path[0])
    decreases |path|
  {
    if |path| > 2 {
      var tail := path[1..];
      assert ParentPath(g, tail) by {
        forall i | 0 <= i < |tail| - 1 ensures tail[i + 1] in g.nodeMap[tail[i]].parents {
          assert tail[i] == path[i + 1] && tail[i + 1] == path[i + 2];
        }
      }
      PathReachesAncestor(g, rank, tail);
      assert path[1] in g.nodeMap[path[0]].parents;
    }
  }

  /** The ancestors of `k` are exactly the keys a parent path from `k` reaches. */
  lemma AncestorsArePaths(g: Graph, rank: map<Key, nat>, k: Key, a: Key)
    requires Ranked(g, rank) && k in g.nodeMap
    ensures a in Ancestors(g, rank, k) <==>
            exists path :: ParentPath(g, path) && path[0] == k && path[|path| - 1] == a
  {
    if a in Ancestors(g, rank, k) {
      var path := AncestorHasPath(g, rank, k, a);
    }
    if exists path :: ParentPath(g, path) && path[0] == k && path[|path| - 1] == a {
      var path :| ParentPath(g, path) && path[0] == k && path[|path| - 1] == a;
      PathReachesAncestor(g, rank, path);
    }
  }

  /** In a well-formed graph, `d` descends from `k` exactly when `k` is one of
      its ancestors; in particular every child is a descendant. */
  lemma ChildIsDescendant(g: Graph, rank: map<Key, nat>, k: Key, c: Key)
    requires WellFormed(g, rank) && k in g.nodeMap && c in g.nodeMap[k].children
    ensures c in Descendants(g, rank, k)
  {
  }
}
