/** Concrete states of one app, and what the detector makes of them. */
module Scenarios {
  import opened Base
  import opened SqlPayload
  import opened Config
  import opened StateGraph
  import opened Closure
  import opened Assemble

  /** A new tax item, a price item whose SQL changes, and a total view that
      depends on both. */
  const P: Key := Key("shop", "tax")
  const K: Key := Key("shop", "price")
  const D: Key := Key("shop", "total_view")

  /** An item of app `shop` with forward SQL `sql` and no reverse SQL. */
  function Item(name: string, sql: string, deps: seq<Key>): SqlItem {
    SqlItem(name, Str(sql), Null, deps, false)
  }

  /** `d` depends on both `p` and `k`, which depend on nothing. */
  const Diamond: Graph := Graph(
    map[P := Item("tax", "CREATE tax", []), K := Item("price", "CREATE price", []),
        D := Item("total_view", "CREATE total_view", [P, K])],
    map[P := Node({}, {D}), K := Node({}, {D}), D := Node({P, K}, {})],
    map[D := {P, K}])

  const DiamondRank: map<Key, nat> := map[P := 0, K := 0, D := 1]

  const DiamondDescendants: map<Key, seq<Key>> := map[P := [D], K := [D], D := []]

  /** The three nodes and their edges, read off the literal. */
  lemma DiamondNodes()
    ensures P != K && K != D && P != D
    ensures Diamond.nodes.Keys == {P, K, D} && Diamond.nodeMap.Keys == {P, K, D}
    ensures Diamond.nodeMap[P] == Node({}, {D}) && Diamond.nodeMap[K] == Node({}, {D})
    ensures Diamond.nodeMap[D] == Node({P, K}, {})
  {
  }

  lemma DiamondWellFormed()
    ensures WellFormed(Diamond, DiamondRank)
  {
    DiamondNodes();
    var m := Diamond.nodeMap;
    forall k, p | k in m && p in m[k].parents ensures p in m && k in m[p].children {
      assert k == D;
    }
    forall k, c | k in m && c in m[k].children ensures c in m && k in m[c].parents {
      assert c == D && k != D;
    }
    forall k | k in m
      ensures k in DiamondRank && forall p | p in m[k].parents :: p in m && p in DiamondRank && DiamondRank[p] < DiamondRank[k]
    {
      if k != D {
        assert m[k].parents == {};
      }
    }
  }

  lemma DiamondAncestors()
    ensures Ranked(Diamond, DiamondRank)
    ensures Ancestors(Diamond, DiamondRank, P) == {} && Ancestors(Diamond, DiamondRank, K) == {}
    ensures Ancestors(Diamond, DiamondRank, D) == {P, K}
  {
    DiamondWellFormed();
    assert Diamond.nodeMap[P].parents == {} && Diamond.nodeMap[K].parents == {};
    assert Diamond.nodeMap[D].parents == {P, K};
  }

  lemma DiamondDescendantsOfRoots()
    ensures Ranked(Diamond, DiamondRank)
    ensures Descendants(Diamond, DiamondRank, P) == {D} && Descendants(Diamond, DiamondRank, K) == {D}
  {
    DiamondAncestors();
    assert Diamond.nodeMap.Keys == {P, K, D};
  }

  lemma DiamondDescendantsOfLeaf()
    ensures Ranked(Diamond, DiamondRank) && Descendants(Diamond, DiamondRank, D) == {}
  {
    DiamondAncestors();
    assert Diamond.nodeMap.Keys == {P, K, D};
  }

  lemma DiamondListsNodes()
    ensures ListsNodes(Diamond, DiamondDescendants)
  {
    DiamondNodes();
    var m := Diamond.nodeMap;
    forall k | k in m ensures k in DiamondDescendants && forall d | d in DiamondDescendants[k] :: d in m {
      assert k == P || k == K || k == D;
    }
  }

  lemma DiamondEnumeratesRoots()
    ensures Ranked(Diamond, DiamondRank)
    ensures Enumerates(DiamondDescendants[P], Descendants(Diamond, DiamondRank, P))
    ensures Enumerates(DiamondDescendants[K], Descendants(Diamond, DiamondRank, K))
  {
    DiamondDescendantsOfRoots();
    assert DiamondDescendants[P] == [D] && DiamondDescendants[K] == [D];
    assert Enumerates([D], {D});
  }

  lemma DiamondEnumeratesLeaf()
    ensures Ranked(Diamond, DiamondRank)
    ensures Enumerates(DiamondDescendants[D], Descendants(Diamond, DiamondRank, D))
  {
    DiamondDescendantsOfLeaf();
    assert DiamondDescendants[D] == [];
  }

  lemma DiamondEnumerations()
    ensures Ranked(Diamond, DiamondRank)
    ensures forall k | k in Diamond.nodeMap :: Enumerates(DiamondDescendants[k], Descendants(Diamond, DiamondRank, k))
  {
    DiamondEnumeratesRoots();
    DiamondEnumeratesLeaf();
    assert Diamond.nodeMap.Keys == {P, K, D};
  }

  lemma DiamondListings()
    ensures Ranked(Diamond, DiamondRank) && Listings(Diamond, DiamondRank, DiamondDescendants)
  {
    DiamondListsNodes();
    DiamondEnumerations();
  }

  /** The fold over two keys is two steps from the empty list. */
  lemma FoldTwo(g: Graph, rank: map<Key, nat>, descendants: map<Key, seq<Key>>, placement: Placement,
                all: set<Key>, resolve: set<Key>, x: Key, y: Key)
    requires ConsistentKeys(g) && Ranked(g, rank) && x in g.nodes && y in g.nodes && ListsNodes(g, descendants)
    ensures AssembleFold(g, rank, descendants, placement, all, resolve, [x, y]) ==
      AssembleStep(g, rank, descendants, placement, all,
        AssembleStep(g, rank, descendants, placement, all, Assembly([], resolve), x), y)
  {
    assert [x, y][..1] == [x] && [x][..0] == [];
    assert AssembleFold(g, rank, descendants, placement, all, resolve, []) == Assembly([], resolve);
    assert AssembleFold(g, rank, descendants, placement, all, resolve, [x]) ==
      AssembleStep(g, rank, descendants, placement, all, Assembly([], resolve), x);
  }

  /** The insertions the diamond needs, element by element. */
  lemma SmallInserts(x: Key, y: Key, d: Key)
    ensures Insert([x], 1, y) == [x, y]
    ensures Insert([x, y], 1, d) == [x, d, y]
    ensures Insert([x, y], 0, d) == [d, x, y]
  {
    var a, b, c := Insert([x], 1, y), Insert([x, y], 1, d), Insert([x, y], 0, d);
    assert a[0] == x && a[1] == y;
    assert b[0] == x && b[1] == d && b[2] == y;
    assert c[0] == d && c[1] == x && c[2] == y;
  }

  /** A first key that is not being resolved is simply listed. */
  lemma StepPlain(g: Graph, rank: map<Key, nat>, descendants: map<Key, seq<Key>>, placement: Placement,
                  all: set<Key>, resolve: set<Key>, x: Key)
    requires ConsistentKeys(g) && Ranked(g, rank) && x in g.nodes && ListsNodes(g, descendants)
    requires x !in resolve
    ensures AssembleStep(g, rank, descendants, placement, all, Assembly([], resolve), x) == Assembly([x], resolve)
  {
  }

  /** A root `y` being resolved after `x` goes behind it and pulls in its one
      dependent `d`. */
  lemma StepResolve(g: Graph, rank: map<Key, nat>, descendants: map<Key, seq<Key>>, placement: Placement,
                    all: set<Key>, resolve: set<Key>, x: Key, y: Key, d: Key)
    requires ConsistentKeys(g) && Ranked(g, rank) && y in g.nodes && ListsNodes(g, descendants)
    requires y in resolve && !g.nodes[y].replace && Ancestors(g, rank, y) == {} && descendants[y] == [d]
    ensures AssembleStep(g, rank, descendants, placement, all, Assembly([x], resolve), y) ==
      PullIn(g, rank, placement, [x, y], 1, [d], all, resolve)
  {
    assert FirstIn([x], {}) == 1;
    SmallInserts(x, y, d);
    assert Reverse([d]) == [d];
  }

  /** Pulling in a single dependent: it is inserted where the placement says
      unless it is already listed or one of the original keys. */
  lemma PullInSingle(g: Graph, rank: map<Key, nat>, placement: Placement, acc: seq<Key>, pos: nat,
                     d: Key, all: set<Key>, resolve: set<Key>)
    requires Ranked(g, rank) && pos <= |acc| && d in g.nodeMap
    ensures PullIn(g, rank, placement, acc, pos, [d], all, resolve) ==
      if d !in all && d !in acc then
        var at := if placement == AtChangedKey then pos else FirstIn(acc, Ancestors(g, rank, d));
        Assembly(Insert(acc, at, d), resolve + {d})
      else Assembly(acc, resolve)
  {
    assert [d][1..] == [];
  }

  /** As written, the dependent lands at the resolved key's position. */
  lemma PullInAtChangedKey(g: Graph, rank: map<Key, nat>, x: Key, y: Key, d: Key, all: set<Key>, resolve: set<Key>)
    requires Ranked(g, rank) && d in g.nodeMap && d !in all && d != x && d != y
    ensures PullIn(g, rank, AtChangedKey, [x, y], 1, [d], all, resolve) == Assembly([x, d, y], resolve + {d})
  {
    PullInSingle(g, rank, AtChangedKey, [x, y], 1, d, all, resolve);
    SmallInserts(x, y, d);
  }

  lemma FirstInHead(x: Key, y: Key, xs: set<Key>)
    requires x in xs
    ensures FirstIn([x, y], xs) == 0
  {
  }

  /** Corrected, it lands before the first of its ancestors. */
  lemma PullInBeforeAncestors(g: Graph, rank: map<Key, nat>, x: Key, y: Key, d: Key, all: set<Key>, resolve: set<Key>)
    requires Ranked(g, rank) && d in g.nodeMap && d !in all && d != x && d != y
    requires x in Ancestors(g, rank, d)
    ensures PullIn(g, rank, BeforeAncestors, [x, y], 1, [d], all, resolve) == Assembly([d, x, y], resolve + {d})
  {
    PullInSingle(g, rank, BeforeAncestors, [x, y], 1, d, all, resolve);
    FirstInHead(x, y, Ancestors(g, rank, d));
    SmallInserts(x, y, d);
  }

  /** Any state with this shape: a root `p` that is new, a root `k` that is
      changed and not `replace`, and a dependent `d` of `k`, its only one, that
      also depends on `p`; `keys | resolve_keys` visited as `[p, k]`. */
  ghost predicate DiamondShaped(g: Graph, rank: map<Key, nat>, descendants: map<Key, seq<Key>>, p: Key, k: Key, d: Key) {
    && WellFormed(g, rank) && Listings(g, rank, descendants)
    && p in g.nodes && k in g.nodes && p != k && d != p && d != k
    && g.nodeMap[k].parents == {} && !g.nodes[k].replace
    && descendants[k] == [d] && p in g.nodeMap[d].parents
  }

  /** A root has no ancestors. */
  lemma RootAncestors(g: Graph, rank: map<Key, nat>, k: Key)
    requires Ranked(g, rank) && k in g.nodeMap && g.nodeMap[k].parents == {}
    ensures Ancestors(g, rank, k) == {}
  {
  }

  /** Two distinct keys, visited in that order, enumerate their set. */
  lemma EnumeratesPair(x: Key, y: Key)
    requires x != y
    ensures Enumerates([x, y], {x} + {y})
  {
    assert [x, y][0] != [x, y][1];
  }

  /** The facts about a diamond-shaped state the two runs below use. */
  lemma DiamondShapeFacts(g: Graph, rank: map<Key, nat>, descendants: map<Key, seq<Key>>, p: Key, k: Key, d: Key)
    requires DiamondShaped(g, rank, descendants, p, k, d)
    ensures d in g.nodeMap && Ancestors(g, rank, k) == {} && p in Ancestors(g, rank, d)
    ensures {p} + {k} <= g.nodes.Keys && Enumerates([p, k], {p} + {k})
  {
    assert d in descendants[k];
    RootAncestors(g, rank, k);
    EnumeratesPair(p, k);
  }

  /** Visiting `p` then `k`, either placement lists `p`, then `k` behind it,
      and pulls in `d`. */
  lemma DiamondFold(g: Graph, rank: map<Key, nat>, descendants: map<Key, seq<Key>>, placement: Placement,
                    p: Key, k: Key, d: Key)
    requires ConsistentKeys(g) && Ranked(g, rank) && ListsNodes(g, descendants)
    requires p in g.nodes && k in g.nodes && p != k
    requires !g.nodes[k].replace && Ancestors(g, rank, k) == {} && descendants[k] == [d]
    ensures AssembleFold(g, rank, descendants, placement, {p} + {k}, {k}, [p, k]) ==
      PullIn(g, rank, placement, [p, k], 1, [d], {p} + {k}, {k})
  {
    var all := {p} + {k};
    FoldTwo(g, rank, descendants, placement, all, {k}, p, k);
    StepPlain(g, rank, descendants, placement, all, {k}, p);
    StepResolve(g, rank, descendants, placement, all, {k}, p, k, d);
  }

  /** As written, the dependent that `k` pulls in is listed after `p`, one of
      its own ancestors. */
  lemma AssembleChangesAsWrittenMisorders(g: Graph, rank: map<Key, nat>, descendants: map<Key, seq<Key>>,
                                          p: Key, k: Key, d: Key)
    requires DiamondShaped(g, rank, descendants, p, k, d)
    ensures var r := AssembleChangesAsWritten(g, rank, descendants, {p}, {k}, [p, k]);
      r.keys == [p, d, k] && p in Ancestors(g, rank, d) && !LeavesFirst(g, rank, r.keys)
  {
    DiamondShapeFacts(g, rank, descendants, p, k, d);
    DiamondFold(g, rank, descendants, AtChangedKey, p, k, d);
    PullInAtChangedKey(g, rank, p, k, d, {p} + {k}, {k});
    var keys := [p, d, k];
    assert keys[0] in Ancestors(g, rank, keys[1]);
  }

  /** The assembly as written, with its resolve set: `k` and the dependent
      it pulls in. */
  lemma AsWrittenDiamondAssembly(g: Graph, rank: map<Key, nat>, descendants: map<Key, seq<Key>>,
                                 p: Key, k: Key, d: Key)
    requires DiamondShaped(g, rank, descendants, p, k, d)
    ensures {p} + {k} <= g.nodes.Keys && Enumerates([p, k], {p} + {k})
    ensures AssembleChangesWith(g, rank, descendants, AtChangedKey, {p}, {k}, [p, k]) == Assembly([p, d, k], {k} + {d})
  {
    DiamondShapeFacts(g, rank, descendants, p, k, d);
    var fold := AssembleFold(g, rank, descendants, AtChangedKey, {p} + {k}, {k}, [p, k]);
    assert fold == Assembly([p, d, k], {k} + {d}) by {
      DiamondFold(g, rank, descendants, AtChangedKey, p, k, d);
      PullInAtChangedKey(g, rank, p, k, d, {p} + {k}, {k});
    }
    assert AssembleChangesAsWritten(g, rank, descendants, {p}, {k}, [p, k]) == fold;
  }

  /** The corrected placement lists the dependent before both of its
      ancestors. */
  lemma AssembleChangesOrdersDiamond(g: Graph, rank: map<Key, nat>, descendants: map<Key, seq<Key>>,
                                     p: Key, k: Key, d: Key)
    requires DiamondShaped(g, rank, descendants, p, k, d)
    ensures AssembleChanges(g, rank, descendants, {p}, {k}, [p, k]).keys == [d, p, k]
  {
    DiamondShapeFacts(g, rank, descendants, p, k, d);
    DiamondFold(g, rank, descendants, BeforeAncestors, p, k, d);
    PullInBeforeAncestors(g, rank, p, k, d, {p} + {k}, {k});
  }

  /** A chain `r <- a <- x` with a second root `k` that `x` also depends on:
      `r` new, `k` and `a` changed and not `replace`, `x` the only dependent
      of both; `keys | resolve_keys` visited as `[r, k, a]`. */
  ghost predicate ChainShaped(g: Graph, rank: map<Key, nat>, descendants: map<Key, seq<Key>>,
                              r: Key, k: Key, a: Key, x: Key) {
    && WellFormed(g, rank) && Listings(g, rank, descendants)
    && r in g.nodes && k in g.nodes && a in g.nodes && x in g.nodeMap
    && r != k && r != a && r != x && k != a && k != x && a != x
    && g.nodeMap[r].parents == {} && g.nodeMap[k].parents == {} && g.nodeMap[a].parents == {r}
    && a in g.nodeMap[x].parents
    && !g.nodes[k].replace && !g.nodes[a].replace
    && descendants[k] == [x] && descendants[a] == [x]
  }

  /** The ancestors along the chain. */
  lemma ChainAncestors(g: Graph, rank: map<Key, nat>, r: Key, k: Key, a: Key, x: Key)
    requires Ranked(g, rank) && r in g.nodeMap && k in g.nodeMap && a in g.nodeMap && x in g.nodeMap
    requires g.nodeMap[r].parents == {} && g.nodeMap[k].parents == {} && g.nodeMap[a].parents == {r}
    requires a in g.nodeMap[x].parents
    ensures Ancestors(g, rank, k) == {} && Ancestors(g, rank, a) == {r}
    ensures a in Ancestors(g, rank, x) && r in Ancestors(g, rank, x)
  {
    RootAncestors(g, rank, k);
    RootAncestors(g, rank, r);
    assert r in Ancestors(g, rank, a);
  }

  /** Three distinct keys, visited in that order, enumerate their set. */
  lemma EnumeratesTriple(x: Key, y: Key, z: Key)
    requires x != y && x != z && y != z
    ensures Enumerates([x, y, z], {x} + {y, z})
  {
    var o := [x, y, z];
    assert o[0] != o[1] && o[0] != o[2] && o[1] != o[2];
    assert Elems(o) == {x, y, z};
  }

  lemma TripleIn(x: Key, y: Key, z: Key, keys: set<Key>)
    requires x in keys && y in keys && z in keys
    ensures {x} + {y, z} <= keys
  {
  }

  /** The facts about a chain-shaped state the two runs below use. */
  lemma ChainShapeFacts(g: Graph, rank: map<Key, nat>, descendants: map<Key, seq<Key>>, r: Key, k: Key, a: Key, x: Key)
    requires ChainShaped(g, rank, descendants, r, k, a, x)
    ensures Ancestors(g, rank, k) == {} && Ancestors(g, rank, a) == {r}
    ensures a in Ancestors(g, rank, x) && r in Ancestors(g, rank, x)
    ensures {r} + {k, a} <= g.nodes.Keys && Enumerates([r, k, a], {r} + {k, a})
  {
    ChainAncestors(g, rank, r, k, a, x);
    EnumeratesTriple(r, k, a);
    TripleIn(r, k, a, g.nodes.Keys);
  }

  /** The fold over three keys is three steps from the empty list. */
  lemma FoldThree(g: Graph, rank: map<Key, nat>, descendants: map<Key, seq<Key>>, placement: Placement,
                  all: set<Key>, resolve: set<Key>, x: Key, y: Key, z: Key)
    requires ConsistentKeys(g) && Ranked(g, rank) && x in g.nodes && y in g.nodes && z in g.nodes
    requires ListsNodes(g, descendants)
    ensures AssembleFold(g, rank, descendants, placement, all, resolve, [x, y, z]) ==
      AssembleStep(g, rank, descendants, placement, all,
        AssembleFold(g, rank, descendants, placement, all, resolve, [x, y]), z)
  {
    var o := [x, y, z];
    assert o != [] && o[..|o| - 1] == [x, y] && o[|o| - 1] == z;
  }

  /** A key being resolved whose one dependent is already listed goes before
      its first listed ancestor and pulls in nothing. */
  lemma StepResolveListed(g: Graph, rank: map<Key, nat>, descendants: map<Key, seq<Key>>, placement: Placement,
                          all: set<Key>, acc: seq<Key>, resolve: set<Key>, key: Key, d: Key)
    requires ConsistentKeys(g) && Ranked(g, rank) && key in g.nodes && ListsNodes(g, descendants)
    requires key in resolve && !g.nodes[key].replace && descendants[key] == [d] && d in acc
    ensures AssembleStep(g, rank, descendants, placement, all, Assembly(acc, resolve), key) ==
      Assembly(Insert(acc, FirstIn(acc, Ancestors(g, rank, key)), key), resolve)
  {
    var pos := FirstIn(acc, Ancestors(g, rank, key));
    var keys := Insert(acc, pos, key);
    assert Reverse([d]) == [d];
    assert d in keys by {
      var i :| 0 <= i < |acc| && acc[i] == d;
      if i < pos { assert keys[i] == d; } else { assert keys[i + 1] == d; }
    }
    PullInSingle(g, rank, placement, keys, pos, d, all, resolve);
  }

  /** The insertions the chain needs, element by element. */
  lemma ChainInserts(r: Key, k: Key, a: Key, x: Key)
    requires r != x
    ensures FirstIn([r, x, k], {r}) == 0 && Insert([r, x, k], 0, a) == [a, r, x, k]
    ensures FirstIn([x, r, k], {r}) == 1 && Insert([x, r, k], 1, a) == [x, a, r, k]
  {
    var b, c := Insert([r, x, k], 0, a), Insert([x, r, k], 1, a);
    assert b[0] == a && b[1] == r && b[2] == x && b[3] == k;
    assert c[0] == x && c[1] == a && c[2] == r && c[3] == k;
    assert [x, r, k][1..] == [r, k];
  }

  /** Visiting `r`, `k`, `a`: `r` is listed, `k` behind it pulls in `x`, then
      `a` is placed before its first listed ancestor. */
  lemma ChainFold(g: Graph, rank: map<Key, nat>, descendants: map<Key, seq<Key>>, placement: Placement,
                  r: Key, k: Key, a: Key, x: Key, afterK: seq<Key>)
    requires ConsistentKeys(g) && Ranked(g, rank) && ListsNodes(g, descendants)
    requires r in g.nodes && k in g.nodes && a in g.nodes && r != k && r != a && k != a && x != r && x != k
    requires !g.nodes[k].replace && !g.nodes[a].replace
    requires Ancestors(g, rank, k) == {} && Ancestors(g, rank, a) == {r}
    requires descendants[k] == [x] && descendants[a] == [x]
    requires PullIn(g, rank, placement, [r, k], 1, [x], {r} + {k, a}, {k, a}) == Assembly(afterK, {k, a} + {x})
    requires x in afterK
    ensures AssembleFold(g, rank, descendants, placement, {r} + {k, a}, {k, a}, [r, k, a]) ==
      Assembly(Insert(afterK, FirstIn(afterK, {r}), a), {k, a} + {x})
  {
    var all, resolve := {r} + {k, a}, {k, a};
    FoldThree(g, rank, descendants, placement, all, resolve, r, k, a);
    FoldTwo(g, rank, descendants, placement, all, resolve, r, k);
    StepPlain(g, rank, descendants, placement, all, resolve, r);
    StepResolve(g, rank, descendants, placement, all, resolve, r, k, x);
    StepResolveListed(g, rank, descendants, placement, all, afterK, resolve + {x}, a, x);
  }

  /** The two placements on a chain, from the facts the fold needs alone. */
  lemma ChainFoldAsWritten(g: Graph, rank: map<Key, nat>, descendants: map<Key, seq<Key>>, r: Key, k: Key, a: Key, x: Key)
    requires ConsistentKeys(g) && Ranked(g, rank) && ListsNodes(g, descendants)
    requires r in g.nodes && k in g.nodes && a in g.nodes && x in g.nodeMap
    requires r != k && r != a && k != a && x != r && x != k && x != a
    requires !g.nodes[k].replace && !g.nodes[a].replace
    requires Ancestors(g, rank, k) == {} && Ancestors(g, rank, a) == {r}
    requires descendants[k] == [x] && descendants[a] == [x]
    ensures AssembleFold(g, rank, descendants, AtChangedKey, {r} + {k, a}, {k, a}, [r, k, a]) ==
      Assembly([a, r, x, k], {k, a} + {x})
  {
    PullInAtChangedKey(g, rank, r, k, x, {r} + {k, a}, {k, a});
    ChainFold(g, rank, descendants, AtChangedKey, r, k, a, x, [r, x, k]);
    ChainInserts(r, k, a, x);
  }

  lemma ChainFoldCorrected(g: Graph, rank: map<Key, nat>, descendants: map<Key, seq<Key>>, r: Key, k: Key, a: Key, x: Key)
    requires ConsistentKeys(g) && Ranked(g, rank) && ListsNodes(g, descendants)
    requires r in g.nodes && k in g.nodes && a in g.nodes && x in g.nodeMap
    requires r != k && r != a && k != a && x != r && x != k && x != a
    requires !g.nodes[k].replace && !g.nodes[a].replace
    requires Ancestors(g, rank, k) == {} && Ancestors(g, rank, a) == {r} && r in Ancestors(g, rank, x)
    requires descendants[k] == [x] && descendants[a] == [x]
    ensures AssembleFold(g, rank, descendants, BeforeAncestors, {r} + {k, a}, {k, a}, [r, k, a]) ==
      Assembly([x, a, r, k], {k, a} + {x})
  {
    PullInBeforeAncestors(g, rank, r, k, x, {r} + {k, a}, {k, a});
    ChainFold(g, rank, descendants, BeforeAncestors, r, k, a, x, [x, r, k]);
    ChainInserts(r, k, a, x);
  }

  /** As written, the dependent `x` that `k` pulls in lands behind `a`, its
      own parent, which is re-applied too: the roll-back pass, walking the list
      in order, reaches `a` before `x`. */
  lemma AssembleChangesAsWrittenMisordersChain(g: Graph, rank: map<Key, nat>, descendants: map<Key, seq<Key>>,
                                               r: Key, k: Key, a: Key, x: Key)
    requires ChainShaped(g, rank, descendants, r, k, a, x)
    ensures var res := AssembleChangesAsWritten(g, rank, descendants, {r}, {k, a}, [r, k, a]);
      res.keys == [a, r, x, k] && res.resolve == {k, a} + {x} &&
      a in Ancestors(g, rank, x) && !LeavesFirst(g, rank, res.keys)
  {
    ChainShapeFacts(g, rank, descendants, r, k, a, x);
    ChainFoldAsWritten(g, rank, descendants, r, k, a, x);
    var keys := [a, r, x, k];
    assert keys[0] in Ancestors(g, rank, keys[2]);
  }

  /** The corrected placement lists `x` before both of its listed ancestors. */
  lemma AssembleChangesOrdersChain(g: Graph, rank: map<Key, nat>, descendants: map<Key, seq<Key>>,
                                   r: Key, k: Key, a: Key, x: Key)
    requires ChainShaped(g, rank, descendants, r, k, a, x)
    ensures AssembleChanges(g, rank, descendants, {r}, {k, a}, [r, k, a]).keys == [x, a, r, k]
  {
    ChainShapeFacts(g, rank, descendants, r, k, a, x);
    ChainFoldCorrected(g, rank, descendants, r, k, a, x);
  }

  /** The shop example has that shape: tax new, price changed, the total view
      depending on both. */
  lemma DiamondIsDiamondShaped()
    ensures DiamondShaped(Diamond, DiamondRank, DiamondDescendants, P, K, D)
  {
    DiamondWellFormed();
    DiamondListings();
    DiamondNodes();
  }

  /** On the shop example the code as written lists `[tax, total_view, price]`
      and the corrected placement `[total_view, tax, price]`. */
  lemma DiamondRuns()
    ensures DiamondShaped(Diamond, DiamondRank, DiamondDescendants, P, K, D)
    ensures AssembleChangesAsWritten(Diamond, DiamondRank, DiamondDescendants, {P}, {K}, [P, K]).keys == [P, D, K]
    ensures AssembleChanges(Diamond, DiamondRank, DiamondDescendants, {P}, {K}, [P, K]).keys == [D, P, K]
  {
    DiamondIsDiamondShaped();
    AssembleChangesAsWrittenMisorders(Diamond, DiamondRank, DiamondDescendants, P, K, D);
    AssembleChangesOrdersDiamond(Diamond, DiamondRank, DiamondDescendants, P, K, D);
  }
}
