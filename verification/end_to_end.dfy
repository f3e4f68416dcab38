/** The detector end to end on a diamond-shaped to-state: what the insertion
    of line 105 as written makes `generate_sql_changes` emit. */
module EndToEnd {
  import opened Base
  import opened SqlPayload
  import opened StateGraph
  import opened Closure
  import opened Differ
  import opened Assemble
  import opened Registry
  import opened Passes
  import opened Detector
  import opened Scenarios

  /** With `p` new and `k` changed the only new or changed items. */
  lemma PairSplit(from: Graph, to: Graph, p: Key, k: Key)
    requires Enumerates([p, k], NewOrChangedKeys(from, to))
    requires p in to.nodes && p !in from.nodes && k in from.nodes
    ensures to.nodes.Keys - from.nodes.Keys == {p} && ChangedKeys(from, to) == {k}
  {
    assert [p, k][0] == p && [p, k][1] == k;
    assert k in NewOrChangedKeys(from, to) && k in ChangedKeys(from, to);
    assert forall x | x in NewOrChangedKeys(from, to) :: x == p || x == k;
  }

  /** Python's list reversal of three keys. */
  lemma ReverseThree(a: Key, b: Key, c: Key)
    ensures Reverse([a, b, c]) == [c, b, a]
  {
    var r := Reverse([a, b, c]);
    assert r[0] == c && r[1] == b && r[2] == a;
  }

  /** The forward pass over three keys asks for one operation per key. */
  lemma ApplyPlanThree(from: Graph, to: Graph, changed: set<Key>, a: Key, b: Key, c: Key)
    requires Ready(from, to, changed, Apply, a) && Ready(from, to, changed, Apply, b) && Ready(from, to, changed, Apply, c)
    ensures Plan(from, to, changed, Apply, [a, b, c]) ==
      [Entry(from, to, changed, Apply, a).value, Entry(from, to, changed, Apply, b).value,
       Entry(from, to, changed, Apply, c).value]
  {
    var ea, eb, ec := Entry(from, to, changed, Apply, a), Entry(from, to, changed, Apply, b),
                      Entry(from, to, changed, Apply, c);
    assert [c][1..] == [];
    assert Plan(from, to, changed, Apply, [c]) == [ec.value];
    assert [b, c][1..] == [c];
    assert Plan(from, to, changed, Apply, [b, c]) == [eb.value] + [ec.value];
    assert [a, b, c][1..] == [b, c];
    assert Plan(from, to, changed, Apply, [a, b, c]) == [ea.value] + [eb.value, ec.value];
  }

  /** The forward pass over `[p, v, k]` backwards: `k`, then `AlterSQL(v)`
      after its parents, then `CreateSQL(p)`. */
  lemma AsWrittenApplyPass(from: Graph, to: Graph, s: Sequenced, p: Key, k: Key, v: Key)
    requires PassesReady(from, to, s) && s.forward == Assembly([p, v, k], {k} + {v})
    requires p != k && p != v && v in to.nodeMap
    ensures var p2 := PassPlan(from, to, s, Apply);
      |p2| == 3 && p2[0].key == k && p2[1].key == v && p2[1].op.AlterSql? &&
      p2[1].depKeys == to.nodeMap[v].parents + {v} && p2[2].key == p && p2[2].op.CreateSql?
  {
    ReverseThree(p, v, k);
    assert k in Reverse(s.forward.keys) && v in Reverse(s.forward.keys) && p in Reverse(s.forward.keys);
    ApplyPlanThree(from, to, {k} + {v}, k, v, p);
  }

  /** The roll-back pass asks nothing for `p`, which is not being resolved. */
  lemma AsWrittenRollBackPass(from: Graph, to: Graph, s: Sequenced, p: Key, k: Key, v: Key)
    requires PassesReady(from, to, s) && s.forward == Assembly([p, v, k], {k} + {v})
    requires p != k && p != v
    ensures forall q | q in PassPlan(from, to, s, RollBack) :: q.key != p
  {
  }

  /** The forward list as written, `[p, v, k]` with `k` and its pulled-in
      dependent `v` resolved, asks the forward pass for `AlterSQL(v)` before
      `CreateSQL(p)`, with nothing for `p` asked before. */
  lemma AsWrittenPlan(from: Graph, to: Graph, s: Sequenced, deltas: seq<DepChange>, p: Key, k: Key, v: Key)
    requires PassesReady(from, to, s) && s.forward == Assembly([p, v, k], {k} + {v})
    requires p != k && p != v && v in to.nodeMap
    ensures var plan := AllPasses(from, to, s, deltas); var n := |PassPlan(from, to, s, RollBack)|;
      n + 2 < |plan| && (forall j | 0 <= j <= n :: plan[j].key != p) &&
      plan[n + 1].key == v && plan[n + 1].op.AlterSql? && plan[n + 1].depKeys == to.nodeMap[v].parents + {v} &&
      plan[n + 2].key == p && plan[n + 2].op.CreateSql?
  {
    var p1, p2 := PassPlan(from, to, s, RollBack), PassPlan(from, to, s, Apply);
    var rest := PassPlan(from, to, s, Drop) + StatePlan(deltas);
    AsWrittenApplyPass(from, to, s, p, k, v);
    AsWrittenRollBackPass(from, to, s, p, k, v);
    ConcatIndex(p1, p2, rest, p);
  }

  /** Indexing into a list of requests followed by three more. */
  lemma ConcatIndex(p1: seq<Planned>, p2: seq<Planned>, rest: seq<Planned>, p: Key)
    requires |p2| == 3 && p2[0].key != p && forall q | q in p1 :: q.key != p
    ensures var plan := p1 + p2 + rest; var n := |p1|;
      n + 2 < |plan| && plan[n + 1] == p2[1] && plan[n + 2] == p2[2] && forall j | 0 <= j <= n :: plan[j].key != p
  {
    var plan := p1 + p2 + rest;
    forall j | 0 <= j <= |p1| ensures plan[j].key != p {
      if j < |p1| {
        assert plan[j] == p1[j] && p1[j] in p1;
      }
    }
  }

  /** Line 229 as written on a diamond-shaped to-state lists `[p, v, k]`,
      resolving `k` and `v`. */
  lemma AsWrittenStages(from: Graph, to: Graph, fromRank: map<Key, nat>, toRank: map<Key, nat>,
                        fromDescendants: map<Key, seq<Key>>, toDescendants: map<Key, seq<Key>>,
                        common: seq<Key>, deleteOrder: seq<Key>, p: Key, k: Key, v: Key)
    returns (d: Diff, s: Sequenced)
    requires Inputs(from, to, fromRank, toRank, fromDescendants, toDescendants, common, [p, k], deleteOrder)
    requires Comparable(from, to)
    requires DiamondShaped(to, toRank, toDescendants, p, k, v)
    requires p !in from.nodes && k in from.nodes
    ensures PassesReady(from, to, s) && s.forward == Assembly([p, v, k], {k} + {v})
    ensures GenerateSqlChanges(from, to, fromRank, toRank, fromDescendants, toDescendants,
                               common, [p, k], deleteOrder, AtChangedKey) ==
      Ok(Emit(AllPasses(from, to, s, d.depChanges)).ops)
  {
    d, s := Stages(from, to, fromRank, toRank, fromDescendants, toDescendants, common, [p, k], deleteOrder, AtChangedKey);
    PairSplit(from, to, p, k);
    AsWrittenDiamondAssembly(to, toRank, toDescendants, p, k, v);
  }

  /** In a chained list, an alteration of `v` that depends on `p` and comes
      before anything for `p` has no operation for `p` to follow. */
  lemma AltersBeforeCreating(ops: seq<Emitted>, n: nat, p: Key, v: Key)
    requires Chained(ops) && n + 2 < |ops| && (forall j | 0 <= j <= n :: ops[j].key != p)
    requires ops[n + 1].key == v && ops[n + 1].op.AlterSql? && p in ops[n + 1].deps
    requires ops[n + 2].key == p && ops[n + 2].op.CreateSql?
    ensures exists i, j | 0 <= i < j < |ops| ::
      ops[i].key == v && ops[i].op.AlterSql? && p in ops[i].deps && ops[i].deps[p] == None &&
      ops[j].key == p && ops[j].op.CreateSql?
  {
    NoneIffNothingBefore(ops, n + 1, p);
  }

  /** What the emitted list keeps of the requests around position `n + 1`. */
  lemma EmittedAround(plan: seq<Planned>, n: nat, p: Key)
    requires n + 2 < |plan| && (forall j | 0 <= j <= n :: plan[j].key != p)
    ensures var ops := Emit(plan).ops;
      Chained(ops) && n + 2 < |ops| && (forall j | 0 <= j <= n :: ops[j].key != p) &&
      ops[n + 1].key == plan[n + 1].key && ops[n + 1].op == plan[n + 1].op && ops[n + 1].deps.Keys == plan[n + 1].depKeys &&
      ops[n + 2].key == plan[n + 2].key && ops[n + 2].op == plan[n + 2].op
  {
  }

  /** Emitting the passes over `[p, v, k]` with `k` and `v` resolved: the
      alteration of `v` that depends on `p` comes before the creation of `p`,
      with nothing for `p` to follow. */
  lemma AsWrittenEmits(from: Graph, to: Graph, s: Sequenced, deltas: seq<DepChange>, p: Key, k: Key, v: Key)
    requires PassesReady(from, to, s) && s.forward == Assembly([p, v, k], {k} + {v})
    requires p != k && p != v && v in to.nodeMap && p in to.nodeMap[v].parents
    ensures var ops := Emit(AllPasses(from, to, s, deltas)).ops;
      exists i, j | 0 <= i < j < |ops| ::
        ops[i].key == v && ops[i].op.AlterSql? && p in ops[i].deps && ops[i].deps[p] == None &&
        ops[j].key == p && ops[j].op.CreateSql?
  {
    var plan := AllPasses(from, to, s, deltas);
    var n := |PassPlan(from, to, s, RollBack)|;
    AsWrittenPlan(from, to, s, deltas, p, k, v);
    EmittedAround(plan, n, p);
    AltersBeforeCreating(Emit(plan).ops, n, p, v);
  }

  /** As written, on a to-state shaped like the shop example (`v` depends on
      the new item `p` and on the changed root `k`, its only dependent), line
      229 lists `[p, v, k]` and the run emits `AlterSQL(v)` with no operation
      for `p` to follow, before the `CreateSQL(p)` it depends on. */
  lemma AsWrittenAltersBeforeCreating(from: Graph, to: Graph, fromRank: map<Key, nat>, toRank: map<Key, nat>,
                                      fromDescendants: map<Key, seq<Key>>, toDescendants: map<Key, seq<Key>>,
                                      common: seq<Key>, deleteOrder: seq<Key>, p: Key, k: Key, v: Key)
    requires Inputs(from, to, fromRank, toRank, fromDescendants, toDescendants, common, [p, k], deleteOrder)
    requires Comparable(from, to)
    requires DiamondShaped(to, toRank, toDescendants, p, k, v)
    requires p !in from.nodes && k in from.nodes
    ensures p in Ancestors(to, toRank, v)
    ensures var ops := GenerateSqlChanges(from, to, fromRank, toRank, fromDescendants, toDescendants,
                                          common, [p, k], deleteOrder, AtChangedKey).value;
      exists i, j | 0 <= i < j < |ops| ::
        ops[i].key == v && ops[i].op.AlterSql? && p in ops[i].deps && ops[i].deps[p] == None &&
        ops[j].key == p && ops[j].op.CreateSql?
  {
    DiamondShapeFacts(to, toRank, toDescendants, p, k, v);
    var d, s := AsWrittenStages(from, to, fromRank, toRank, fromDescendants, toDescendants, common, deleteOrder, p, k, v);
    AsWrittenEmits(from, to, s, d.depChanges, p, k, v);
  }

  /** The shop before the change: no tax item yet, the price item with its
      old SQL, and the total view over the price alone. */
  const ShopBefore: Graph := Graph(
    map[K := Item("price", "OLD price", []), D := Item("total_view", "CREATE total_view", [K])],
    map[K := Node({}, {D}), D := Node({K}, {})],
    map[D := {K}])

  const ShopBeforeRank: map<Key, nat> := map[K := 0, D := 1]

  const ShopBeforeDescendants: map<Key, seq<Key>> := map[K := [D], D := []]

  lemma ShopBeforeWellFormed()
    ensures WellFormed(ShopBefore, ShopBeforeRank)
    ensures ShopBefore.nodes.Keys == {K, D} && ShopBefore.nodeMap.Keys == {K, D}
  {
    DiamondNodes();
    var m := ShopBefore.nodeMap;
    forall k, p | k in m && p in m[k].parents ensures p in m && k in m[p].children {
      assert k == D;
    }
    forall k, c | k in m && c in m[k].children ensures c in m && k in m[c].parents {
      assert c == D && k == K;
    }
    forall k | k in m
      ensures k in ShopBeforeRank &&
              forall p | p in m[k].parents :: p in m && p in ShopBeforeRank && ShopBeforeRank[p] < ShopBeforeRank[k]
    {
      if k == K {
        assert m[k].parents == {};
      }
    }
  }

  lemma ShopBeforeListings()
    ensures Ranked(ShopBefore, ShopBeforeRank) && Listings(ShopBefore, ShopBeforeRank, ShopBeforeDescendants)
  {
    ShopBeforeWellFormed();
    var m := ShopBefore.nodeMap;
    RootAncestors(ShopBefore, ShopBeforeRank, K);
    assert Ancestors(ShopBefore, ShopBeforeRank, D) == {K};
    assert Descendants(ShopBefore, ShopBeforeRank, K) == {D};
    assert Descendants(ShopBefore, ShopBeforeRank, D) == {};
    assert Enumerates([D], {D});
    forall k | k in m ensures k in ShopBeforeDescendants && forall d | d in ShopBeforeDescendants[k] :: d in m {
      assert k == K || k == D;
    }
  }

  /** The price SQL changed, the total view's did not, and the tax item is new. */
  lemma ShopChange()
    ensures Comparable(ShopBefore, Diamond)
    ensures NewOrChangedKeys(ShopBefore, Diamond) == {P, K}
    ensures ShopBefore.nodes.Keys * Diamond.nodes.Keys == {K, D}
    ensures ShopBefore.nodes.Keys - Diamond.nodes.Keys == {}
  {
    ShopBeforeWellFormed();
    DiamondNodes();
    assert IsSqlEqual(Str("OLD price"), Str("CREATE price")) == Ok(false);
    assert IsSqlEqual(Str("CREATE total_view"), Str("CREATE total_view")) == Ok(true);
    assert ChangedKeys(ShopBefore, Diamond) == {K};
  }

  /** The iteration orders of the shop change: the common keys, the new and
      changed keys with the tax item first, no deleted keys. */
  lemma ShopOrders()
    ensures Enumerates([K, D], ShopBefore.nodes.Keys * Diamond.nodes.Keys)
    ensures Enumerates([P, K], NewOrChangedKeys(ShopBefore, Diamond))
    ensures Enumerates([], ShopBefore.nodes.Keys - Diamond.nodes.Keys)
  {
    ShopChange();
    DiamondNodes();
    EnumeratesPair(K, D);
    assert {K} + {D} == {K, D};
    EnumeratesPair(P, K);
    assert {P} + {K} == {P, K};
  }

  /** The detector's inputs for the shop change. */
  lemma ShopInputs()
    ensures Inputs(ShopBefore, Diamond, ShopBeforeRank, DiamondRank, ShopBeforeDescendants, DiamondDescendants,
                   [K, D], [P, K], [])
    ensures Comparable(ShopBefore, Diamond) && P !in ShopBefore.nodes && K in ShopBefore.nodes
  {
    ShopBeforeWellFormed();
    ShopBeforeListings();
    DiamondWellFormed();
    DiamondListings();
    ShopChange();
    ShopOrders();
    DiamondNodes();
  }

  /** On the shop change the code as written emits `AlterSQL(total_view)`,
      with nothing emitted for the tax item it depends on, before
      `CreateSQL(tax)`; with the corrected placement no creation or alteration
      comes after one for an item that depends on it. */
  lemma ShopRuns()
    ensures Inputs(ShopBefore, Diamond, ShopBeforeRank, DiamondRank, ShopBeforeDescendants, DiamondDescendants,
                   [K, D], [P, K], []) && Comparable(ShopBefore, Diamond)
    ensures var ops := GenerateSqlChanges(ShopBefore, Diamond, ShopBeforeRank, DiamondRank,
                                          ShopBeforeDescendants, DiamondDescendants, [K, D], [P, K], [], AtChangedKey).value;
      exists i, j | 0 <= i < j < |ops| ::
        ops[i].key == D && ops[i].op.AlterSql? && P in ops[i].deps && ops[i].deps[P] == None &&
        ops[j].key == P && ops[j].op.CreateSql?
    ensures var ops := GenerateSqlChanges(ShopBefore, Diamond, ShopBeforeRank, DiamondRank,
                                          ShopBeforeDescendants, DiamondDescendants, [K, D], [P, K], [], BeforeAncestors).value;
      forall i, j | 0 <= i < j < |ops| && OfPass(Apply, ops[i].op) && OfPass(Apply, ops[j].op) ::
        ops[i].key in Diamond.nodeMap && ops[j].key !in Ancestors(Diamond, DiamondRank, ops[i].key)
  {
    ShopInputs();
    DiamondIsDiamondShaped();
    AsWrittenAltersBeforeCreating(ShopBefore, Diamond, ShopBeforeRank, DiamondRank, ShopBeforeDescendants,
                                  DiamondDescendants, [K, D], [], P, K, D);
    ForwardParentsFirst(ShopBefore, Diamond, ShopBeforeRank, DiamondRank, ShopBeforeDescendants,
                        DiamondDescendants, [K, D], [P, K], [], BeforeAncestors);
  }
}
