/** `generate_sql_changes` (migrate_sql/autodetector.py:198-236): diff the
    from-state against the to-state, assemble the keys to emit for, and run the
    four passes against one fresh registry. */
module Detector {
  import opened Base
  import opened SqlPayload
  import opened StateGraph
  import opened Closure
  import opened Differ
  import opened Assemble
  import opened Registry
  import opened Passes

  /** Lines 203-224: new and deleted keys, the common keys whose forward SQL
      compares unequal, and the dependency deltas, with `common` the iteration
      order of `from_keys & to_keys`. A payload that cannot be compared aborts
      the detection. */
  function GenerateDiff(from: Graph, to: Graph, common: seq<Key>): (r: Result<Diff, SqlError>)
    requires Enumerates(common, from.nodes.Keys * to.nodes.Keys)
    ensures r.Ok? <==> forall k | k in from.nodes && k in to.nodes :: IsSqlEqual(from.nodes[k].sql, to.nodes[k].sql).Ok?
    ensures r.Ok? ==> r.value.newKeys == to.nodes.Keys - from.nodes.Keys
    ensures r.Ok? ==> r.value.deleteKeys == from.nodes.Keys - to.nodes.Keys
    ensures r.Ok? ==> forall k :: k in r.value.changed <==>
      k in from.nodes && k in to.nodes && IsSqlEqual(from.nodes[k].sql, to.nodes[k].sql) == Ok(false)
    ensures r.Ok? ==> forall d | d in r.value.depChanges ::
      d.key in from.nodes && d.key in to.nodes && d == Delta(from, to, d.key)
    ensures r.Ok? ==> forall k | k in from.nodes && k in to.nodes ::
      DepsDiffer(from, to, k) <==> exists d | d in r.value.depChanges :: d.key == k
  {
    var cmp :- CompareCommon(from, to, IsSqlEqual, common);
    assert forall k | k in from.nodes && k in to.nodes :: k in common;
    Ok(Diff(to.nodes.Keys - from.nodes.Keys, from.nodes.Keys - to.nodes.Keys, cmp.changed, cmp.depChanges))
  }

  /** Line 223: a delta is recorded exactly when a dependency was removed or
      added. */
  lemma DeltaIffNonEmpty(from: Graph, to: Graph, k: Key)
    ensures DepsDiffer(from, to, k) <==> Delta(from, to, k).removed != {} || Delta(from, to, k).added != {}
  {
    var a, b := LazyDeps(from, k), LazyDeps(to, k);
    if a - b == {} && b - a == {} {
      assert forall x :: x in a <==> x in b by {
        forall x ensures x in a <==> x in b {
          assert x !in a - b && x !in b - a;
        }
      }
      assert a == b;
    }
  }

  /** `g` and `h` hold the same keys, forward SQL and registered dependencies:
      they may differ in reverse SQL, `replace` and the declared lists. */
  ghost predicate SameSqlAndDeps(g: Graph, h: Graph) {
    g.nodes.Keys == h.nodes.Keys &&
    (forall k | k in g.nodes :: g.nodes[k].sql == h.nodes[k].sql) &&
    forall k :: LazyDeps(g, k) == LazyDeps(h, k)
  }

  /** Whether an item changed depends on its forward SQL only, whatever the
      comparison. */
  lemma {:induction false} CompareCommonSqlOnly(from: Graph, to: Graph, from': Graph, to': Graph,
                                                equal: Equality, common: seq<Key>)
    requires SameSqlAndDeps(from, from') && SameSqlAndDeps(to, to')
    requires forall k | k in common :: k in from.nodes && k in to.nodes
    ensures CompareCommon(from, to, equal, common) == CompareCommon(from', to', equal, common)
    decreases |common|
  {
    if common != [] {
      var k := common[0];
      assert SqlComparison(from, to, equal, k) == SqlComparison(from', to', equal, k);
      assert Delta(from, to, k) == Delta(from', to', k);
      CompareCommonSqlOnly(from, to, from', to', equal, common[1..]);
    }
  }

  /** Line 215: reverse SQL and `replace` never make an item changed. */
  lemma DiffIgnoresReverseAndReplace(from: Graph, to: Graph, from': Graph, to': Graph, common: seq<Key>)
    requires SameSqlAndDeps(from, from') && SameSqlAndDeps(to, to')
    requires Enumerates(common, from.nodes.Keys * to.nodes.Keys)
    ensures Enumerates(common, from'.nodes.Keys * to'.nodes.Keys)
    ensures GenerateDiff(from, to, common) == GenerateDiff(from', to', common)
  {
    CompareCommonSqlOnly(from, to, from', to', IsSqlEqual, common);
  }

  /** What `generate_sql_changes` passes on from the diff. */
  ghost predicate DiffShape(from: Graph, to: Graph, d: Diff) {
    d.newKeys == to.nodes.Keys - from.nodes.Keys && d.deleteKeys == from.nodes.Keys - to.nodes.Keys &&
    d.changed <= from.nodes.Keys * to.nodes.Keys
  }

  /** `forwardOrder` and `deleteOrder` are the iteration orders of
      `new_keys | changed_keys` and `delete_keys` in the two calls of
      `assemble_changes`. */
  ghost predicate Orders(d: Diff, forwardOrder: seq<Key>, deleteOrder: seq<Key>) {
    Enumerates(forwardOrder, d.newKeys + d.changed) && Enumerates(deleteOrder, d.deleteKeys)
  }

  /** The two assembled key lists: `keys`, with the resolve set that
      `changed_keys` has grown into, and `delete_keys`. */
  datatype Sequenced = Sequenced(forward: Assembly, deletes: Assembly)

  /** Every pass finds what it reads. */
  ghost predicate PassesReady(from: Graph, to: Graph, s: Sequenced) {
    (forall k | k in s.forward.keys :: Ready(from, to, s.forward.resolve, RollBack, k)) &&
    (forall k | k in Reverse(s.forward.keys) :: Ready(from, to, s.forward.resolve, Apply, k)) &&
    (forall k | k in s.deletes.keys :: Ready(from, to, s.forward.resolve, Drop, k))
  }

  /** Line 229 in the to-state. */
  lemma ForwardFacts(from: Graph, to: Graph, toRank: map<Key, nat>, toDescendants: map<Key, seq<Key>>,
                     d: Diff, forwardOrder: seq<Key>, placement: Placement)
    requires WellFormed(to, toRank) && Listings(to, toRank, toDescendants)
    requires DiffShape(from, to, d) && Enumerates(forwardOrder, d.newKeys + d.changed)
    ensures var fwd := AssembleChangesWith(to, toRank, toDescendants, placement, d.newKeys, d.changed, forwardOrder);
      NoDups(fwd.keys) && KeysFirst(to, toRank, fwd.keys, d.newKeys + d.changed) &&
      (placement == BeforeAncestors ==> LeavesFirst(to, toRank, fwd.keys)) &&
      d.newKeys + d.changed <= Elems(fwd.keys) <= to.nodes.Keys &&
      d.changed <= fwd.resolve <= from.nodes.Keys * to.nodes.Keys &&
      Elems(fwd.keys) == d.newKeys + fwd.resolve &&
      fwd.resolve == d.changed + PulledBy(to, toRank, d.changed, d.changed, d.newKeys + d.changed)
  {
    assert PulledBy(to, toRank, d.changed, d.changed, d.newKeys + d.changed) <= to.nodes.Keys;
  }

  /** Line 230 in the from-state: nothing to resolve, so nothing is pulled in,
      whatever the placement. */
  lemma DeleteFacts(from: Graph, fromRank: map<Key, nat>, fromDescendants: map<Key, seq<Key>>,
                    deleteKeys: set<Key>, deleteOrder: seq<Key>, placement: Placement)
    requires WellFormed(from, fromRank) && Listings(from, fromRank, fromDescendants)
    requires deleteKeys <= from.nodes.Keys && Enumerates(deleteOrder, deleteKeys)
    ensures var del := AssembleChangesWith(from, fromRank, fromDescendants, placement, deleteKeys, {}, deleteOrder);
      NoDups(del.keys) && LeavesFirst(from, fromRank, del.keys) && Elems(del.keys) == deleteKeys
  {
    assert PulledBy(from, fromRank, {}, {}, deleteKeys + {}) == {};
  }

  /** Lines 229-230: the forward keys assembled in the to-state from the new
      and changed keys, and the deleted keys assembled in the from-state with
      nothing to resolve, both with the given placement. The forward list holds
      the new and changed keys and the dependents they pull in, each new or
      changed key before its listed ancestors; everything it resolves is in
      both states; the delete list holds exactly the deleted keys and runs from
      leaves to roots. Only with the corrected placement does the forward list
      run from leaves to roots as well. */
  function Sequence(from: Graph, to: Graph, ghost fromRank: map<Key, nat>, ghost toRank: map<Key, nat>,
                    fromDescendants: map<Key, seq<Key>>, toDescendants: map<Key, seq<Key>>,
                    d: Diff, forwardOrder: seq<Key>, deleteOrder: seq<Key>, placement: Placement): (s: Sequenced)
    requires WellFormed(from, fromRank) && Listings(from, fromRank, fromDescendants)
    requires WellFormed(to, toRank) && Listings(to, toRank, toDescendants)
    requires DiffShape(from, to, d) && Orders(d, forwardOrder, deleteOrder)
    ensures NoDups(s.forward.keys) && KeysFirst(to, toRank, s.forward.keys, d.newKeys + d.changed)
    ensures placement == BeforeAncestors ==> LeavesFirst(to, toRank, s.forward.keys)
    ensures NoDups(s.deletes.keys) && LeavesFirst(from, fromRank, s.deletes.keys)
    ensures d.newKeys + d.changed <= Elems(s.forward.keys) <= to.nodes.Keys
    ensures d.changed <= s.forward.resolve <= from.nodes.Keys * to.nodes.Keys
    ensures Elems(s.forward.keys) == d.newKeys + s.forward.resolve
    ensures s.forward.resolve == d.changed + PulledBy(to, toRank, d.changed, d.changed, d.newKeys + d.changed)
    ensures Elems(s.deletes.keys) == d.deleteKeys
    ensures PassesReady(from, to, s)
  {
    ForwardFacts(from, to, toRank, toDescendants, d, forwardOrder, placement);
    DeleteFacts(from, fromRank, fromDescendants, d.deleteKeys, deleteOrder, placement);
    var s := Sequenced(AssembleChangesWith(to, toRank, toDescendants, placement, d.newKeys, d.changed, forwardOrder),
                       AssembleChangesWith(from, fromRank, fromDescendants, placement, d.deleteKeys, {}, deleteOrder));
    SequenceReady(from, to, s, d.newKeys, d.deleteKeys);
    s
  }

  /** Keys listed forward are in the to-state, the ones resolved in both
      states, and deleted ones in the from-state: every pass finds its items. */
  lemma SequenceReady(from: Graph, to: Graph, s: Sequenced, newKeys: set<Key>, deleteKeys: set<Key>)
    requires ConsistentKeys(from) && ConsistentKeys(to)
    requires Elems(s.forward.keys) <= to.nodes.Keys && s.forward.resolve <= from.nodes.Keys * to.nodes.Keys
    requires Elems(s.deletes.keys) == deleteKeys && deleteKeys <= from.nodes.Keys
    ensures PassesReady(from, to, s)
  {
    ReverseElems(s.forward.keys);
  }

  /** What one pass walks: the forward keys in order, the forward keys
      backwards, the delete keys in order. */
  function PassPlan(from: Graph, to: Graph, s: Sequenced, pass: Pass): seq<Planned>
    requires PassesReady(from, to, s)
  {
    match pass
    case RollBack => Plan(from, to, s.forward.resolve, RollBack, s.forward.keys)
    case Apply => Plan(from, to, s.forward.resolve, Apply, Reverse(s.forward.keys))
    case Drop => Plan(from, to, s.forward.resolve, Drop, s.deletes.keys)
  }

  /** The four passes of lines 233-236, in that order. */
  function AllPasses(from: Graph, to: Graph, s: Sequenced, deltas: seq<DepChange>): seq<Planned>
    requires PassesReady(from, to, s)
  {
    PassPlan(from, to, s, RollBack) + PassPlan(from, to, s, Apply) + PassPlan(from, to, s, Drop) + StatePlan(deltas)
  }

  /** Where a pass's requests start in `AllPasses`. */
  function Offset(from: Graph, to: Graph, s: Sequenced, pass: Pass): nat
    requires PassesReady(from, to, s)
  {
    match pass
    case RollBack => 0
    case Apply => |PassPlan(from, to, s, RollBack)|
    case Drop => |PassPlan(from, to, s, RollBack)| + |PassPlan(from, to, s, Apply)|
  }

  /** `generate_sql_changes`: the operations in emission order, each chained to
      the last operation emitted before it for each of its dependency keys; a
      payload that cannot be compared aborts the detection. With `AtChangedKey`
      this is the code as written, with `BeforeAncestors` the corrected one. */
  function GenerateSqlChanges(from: Graph, to: Graph, ghost fromRank: map<Key, nat>, ghost toRank: map<Key, nat>,
                              fromDescendants: map<Key, seq<Key>>, toDescendants: map<Key, seq<Key>>,
                              common: seq<Key>, forwardOrder: seq<Key>, deleteOrder: seq<Key>,
                              placement: Placement): (r: Result<seq<Emitted>, SqlError>)
    requires Inputs(from, to, fromRank, toRank, fromDescendants, toDescendants, common, forwardOrder, deleteOrder)
    ensures r.Ok? <==> Comparable(from, to)
    ensures r.Ok? ==> Chained(r.value)
  {
    var d :- GenerateDiff(from, to, common);
    assert d.changed == ChangedKeys(from, to);
    var s := Sequence(from, to, fromRank, toRank, fromDescendants, toDescendants, d, forwardOrder, deleteOrder, placement);
    Ok(Emit(AllPasses(from, to, s, d.depChanges)).ops)
  }

  /** The inputs `generate_sql_changes` is run on: two resolved acyclic
      states with their descendant listings, and the iteration orders of the
      sets it walks. */
  ghost predicate Inputs(from: Graph, to: Graph, fromRank: map<Key, nat>, toRank: map<Key, nat>,
                         fromDescendants: map<Key, seq<Key>>, toDescendants: map<Key, seq<Key>>,
                         common: seq<Key>, forwardOrder: seq<Key>, deleteOrder: seq<Key>) {
    WellFormed(from, fromRank) && Listings(from, fromRank, fromDescendants) &&
    WellFormed(to, toRank) && Listings(to, toRank, toDescendants) &&
    Enumerates(common, from.nodes.Keys * to.nodes.Keys) &&
    Enumerates(forwardOrder, NewOrChangedKeys(from, to)) &&
    Enumerates(deleteOrder, from.nodes.Keys - to.nodes.Keys)
  }

  /** No common item's forward payloads make `is_sql_equal` raise. */
  predicate Comparable(from: Graph, to: Graph) {
    forall k | k in from.nodes && k in to.nodes :: IsSqlEqual(from.nodes[k].sql, to.nodes[k].sql).Ok?
  }

  /** Lines 213-216: an item in both states whose forward SQL compares
      unequal. */
  predicate Changed(from: Graph, to: Graph, k: Key) {
    k in from.nodes && k in to.nodes && IsSqlEqual(from.nodes[k].sql, to.nodes[k].sql) == Ok(false)
  }

  /** The changed items, as a set. */
  function ChangedKeys(from: Graph, to: Graph): set<Key> {
    set k | k in from.nodes && Changed(from, to, k)
  }

  /** `new_keys | changed_keys`: the keys line 229 assembles. */
  function NewOrChangedKeys(from: Graph, to: Graph): set<Key> {
    (to.nodes.Keys - from.nodes.Keys) + ChangedKeys(from, to)
  }

  /** Where an emitted operation came from: one of the four passes. */
  lemma Locate(p1: seq<Planned>, p2: seq<Planned>, p3: seq<Planned>, p4: seq<Planned>, i: nat)
    requires i < |p1 + p2 + p3 + p4|
    ensures var plan := p1 + p2 + p3 + p4;
      (i < |p1| && plan[i] == p1[i]) ||
      (|p1| <= i < |p1| + |p2| && plan[i] == p2[i - |p1|]) ||
      (|p1| + |p2| <= i < |p1| + |p2| + |p3| && plan[i] in p3) ||
      (|p1| + |p2| + |p3| <= i && plan[i] in p4)
  {
    var plan := p1 + p2 + p3 + p4;
    if i < |p1| {
    } else if i < |p1| + |p2| {
    } else if i < |p1| + |p2| + |p3| {
      assert plan[i] == p3[i - |p1| - |p2|];
    } else {
      assert plan[i] == p4[i - |p1| - |p2| - |p3|];
    }
  }

  /** `x` before `y` in the reversed list is `y` before `x` in the list. */
  lemma ReverseBefore(s: seq<Key>, x: Key, y: Key)
    requires Before(Reverse(s), x, y)
    ensures Before(s, y, x)
  {
    var a, b :| 0 <= a < b < |s| && Reverse(s)[a] == x && Reverse(s)[b] == y;
    assert s[|s| - 1 - b] == y && s[|s| - 1 - a] == x;
  }

  /** In a list that keeps the keys of `all` before their ancestors, nothing
      listed before such a key is its ancestor. */
  lemma BeforeNotAncestor(g: Graph, rank: map<Key, nat>, s: seq<Key>, all: set<Key>, x: Key, y: Key)
    requires Ranked(g, rank) && KeysFirst(g, rank, s, all) && Before(s, x, y) && y in all && y in g.nodeMap
    ensures x !in Ancestors(g, rank, y)
  {
  }

  /** Within four concatenated request lists of distinct classes, a request
      of a pass's class lies in that pass's list. */
  lemma PartOf(p1: seq<Planned>, p2: seq<Planned>, p3: seq<Planned>, p4: seq<Planned>, pass: Pass, i: nat)
    returns (k: nat)
    requires forall p | p in p1 :: OfPass(RollBack, p.op)
    requires forall p | p in p2 :: OfPass(Apply, p.op)
    requires forall p | p in p3 :: OfPass(Drop, p.op)
    requires forall p | p in p4 :: p.op.AlterSqlState?
    requires i < |p1 + p2 + p3 + p4| && OfPass(pass, (p1 + p2 + p3 + p4)[i].op)
    ensures var part := match pass case RollBack => p1 case Apply => p2 case Drop => p3;
      var offset := match pass case RollBack => 0 case Apply => |p1| case Drop => |p1| + |p2|;
      k == i - offset && k < |part| && (p1 + p2 + p3 + p4)[i] == part[k]
  {
    var plan := p1 + p2 + p3 + p4;
    Locate(p1, p2, p3, p4, i);
    k := match pass case RollBack => i case Apply => i - |p1| case Drop => i - |p1| - |p2|;
    if pass == Drop {
      assert plan[i] == p3[i - |p1| - |p2|];
    }
  }

  /** The state pass emits only `AlterSQLState`. */
  lemma StatePlanOps(deltas: seq<DepChange>)
    ensures forall p | p in StatePlan(deltas) :: p.op.AlterSqlState?
  {
    var r := StatePlan(deltas);
    forall p | p in r ensures p.op.AlterSqlState? {
      var m :| 0 <= m < |r| && r[m] == p;
    }
  }

  /** An operation of a pass's class was asked for by that pass. */
  lemma InPass(from: Graph, to: Graph, s: Sequenced, deltas: seq<DepChange>, pass: Pass, i: nat) returns (k: nat)
    requires PassesReady(from, to, s)
    requires var plan := AllPasses(from, to, s, deltas); i < |plan| && OfPass(pass, plan[i].op)
    ensures k == i - Offset(from, to, s, pass) && k < |PassPlan(from, to, s, pass)|
    ensures AllPasses(from, to, s, deltas)[i] == PassPlan(from, to, s, pass)[k]
  {
    var changed := s.forward.resolve;
    var p1, p2, p3 := PassPlan(from, to, s, RollBack), PassPlan(from, to, s, Apply), PassPlan(from, to, s, Drop);
    var p4 := StatePlan(deltas);
    PlanOfPass(from, to, changed, RollBack, s.forward.keys);
    PlanOfPass(from, to, changed, Apply, Reverse(s.forward.keys));
    PlanOfPass(from, to, changed, Drop, s.deletes.keys);
    StatePlanOps(deltas);
    k := PartOf(p1, p2, p3, p4, pass, i);
  }

  /** The forward pass walks the assembled list backwards: no later request is
      for an ancestor of an earlier one whose key the list keeps before its
      ancestors. */
  lemma ApplyPassOrder(from: Graph, to: Graph, toRank: map<Key, nat>, changed: set<Key>, keys: seq<Key>,
                       all: set<Key>, i: nat, j: nat)
    requires Ranked(to, toRank) && KeysFirst(to, toRank, keys, all)
    requires forall k | k in Reverse(keys) :: Ready(from, to, changed, Apply, k)
    requires i < j < |Plan(from, to, changed, Apply, Reverse(keys))|
    requires to.nodeMap.Keys <= all || Plan(from, to, changed, Apply, Reverse(keys))[i].key in all
    ensures var p := Plan(from, to, changed, Apply, Reverse(keys));
      p[i].key in to.nodeMap && p[j].key !in Ancestors(to, toRank, p[i].key)
  {
    var p := Plan(from, to, changed, Apply, Reverse(keys));
    PlanInOrder(from, to, changed, Apply, Reverse(keys));
    assert Before(Reverse(keys), p[i].key, p[j].key);
    ReverseBefore(keys, p[i].key, p[j].key);
    assert p[i] in p;
    BeforeNotAncestor(to, toRank, keys, all, p[j].key, p[i].key);
  }

  /** A pass walking the assembled list in order asks for no key of `all`
      after one of its ancestors. */
  lemma InOrderPassOrder(g: Graph, rank: map<Key, nat>, from: Graph, to: Graph, changed: set<Key>, pass: Pass,
                         keys: seq<Key>, all: set<Key>, i: nat, j: nat)
    requires Ranked(g, rank) && KeysFirst(g, rank, keys, all) && forall k | k in keys :: Ready(from, to, changed, pass, k)
    requires i < j < |Plan(from, to, changed, pass, keys)|
    requires Plan(from, to, changed, pass, keys)[j].key in g.nodeMap
    requires Plan(from, to, changed, pass, keys)[j].key in all
    ensures var p := Plan(from, to, changed, pass, keys); p[i].key !in Ancestors(g, rank, p[j].key)
  {
    var p := Plan(from, to, changed, pass, keys);
    PlanInOrder(from, to, changed, pass, keys);
    assert Before(keys, p[i].key, p[j].key);
    BeforeNotAncestor(g, rank, keys, all, p[i].key, p[j].key);
  }

  /** Across all passes: a creation or alteration of a key of `all` comes
      after those of its ancestors. */
  lemma PlanApplyOrder(from: Graph, to: Graph, toRank: map<Key, nat>, s: Sequenced, deltas: seq<DepChange>,
                       all: set<Key>, i: nat, j: nat)
    requires Ranked(to, toRank) && PassesReady(from, to, s) && KeysFirst(to, toRank, s.forward.keys, all)
    requires var plan := AllPasses(from, to, s, deltas);
      i < j < |plan| && OfPass(Apply, plan[i].op) && OfPass(Apply, plan[j].op) &&
      (to.nodeMap.Keys <= all || plan[i].key in all)
    ensures var plan := AllPasses(from, to, s, deltas);
      plan[i].key in to.nodeMap && plan[j].key !in Ancestors(to, toRank, plan[i].key)
  {
    var plan := AllPasses(from, to, s, deltas);
    var a := InPass(from, to, s, deltas, Apply, i);
    var b := InPass(from, to, s, deltas, Apply, j);
    var x, y := plan[i], plan[j];
    ApplyPassOrder(from, to, toRank, s.forward.resolve, s.forward.keys, all, a, b);
    assert x.key in to.nodeMap && y.key !in Ancestors(to, toRank, x.key);
  }

  /** Across all passes: a reverse alteration of a key of `all` comes before
      those of its ancestors. */
  lemma PlanRollBackOrder(from: Graph, to: Graph, toRank: map<Key, nat>, s: Sequenced, deltas: seq<DepChange>,
                          all: set<Key>, i: nat, j: nat)
    requires Ranked(to, toRank) && ConsistentKeys(to) && PassesReady(from, to, s) && KeysFirst(to, toRank, s.forward.keys, all)
    requires var plan := AllPasses(from, to, s, deltas);
      i < j < |plan| && OfPass(RollBack, plan[i].op) && OfPass(RollBack, plan[j].op) &&
      (to.nodeMap.Keys <= all || plan[j].key in all)
    ensures var plan := AllPasses(from, to, s, deltas);
      plan[j].key in to.nodeMap && plan[i].key !in Ancestors(to, toRank, plan[j].key)
  {
    var plan := AllPasses(from, to, s, deltas);
    var p := PassPlan(from, to, s, RollBack);
    var a := InPass(from, to, s, deltas, RollBack, i);
    var b := InPass(from, to, s, deltas, RollBack, j);
    var x, y := plan[i], plan[j];
    assert y == p[b] && y in p;
    InOrderPassOrder(to, toRank, from, to, s.forward.resolve, RollBack, s.forward.keys, all, a, b);
    assert y.key in to.nodeMap && x.key !in Ancestors(to, toRank, y.key);
  }

  /** Across all passes: deletions run from leaves to roots of the from-state. */
  lemma PlanDropOrder(from: Graph, to: Graph, fromRank: map<Key, nat>, s: Sequenced, deltas: seq<DepChange>, i: nat, j: nat)
    requires Ranked(from, fromRank) && PassesReady(from, to, s) && LeavesFirst(from, fromRank, s.deletes.keys)
    requires var plan := AllPasses(from, to, s, deltas);
      i < j < |plan| && OfPass(Drop, plan[i].op) && OfPass(Drop, plan[j].op)
    ensures var plan := AllPasses(from, to, s, deltas);
      plan[j].key in from.nodeMap && plan[i].key !in Ancestors(from, fromRank, plan[j].key)
  {
    var plan := AllPasses(from, to, s, deltas);
    var a := InPass(from, to, s, deltas, Drop, i);
    var b := InPass(from, to, s, deltas, Drop, j);
    var x, y := plan[i], plan[j];
    InOrderPassOrder(from, fromRank, from, to, s.forward.resolve, Drop, s.deletes.keys, from.nodeMap.Keys, a, b);
    assert y.key in from.nodeMap && x.key !in Ancestors(from, fromRank, y.key);
  }

  /** A successful run, stage by stage: the diff, the two assembled lists,
      and the requests that were emitted. */
  lemma Stages(from: Graph, to: Graph, fromRank: map<Key, nat>, toRank: map<Key, nat>,
               fromDescendants: map<Key, seq<Key>>, toDescendants: map<Key, seq<Key>>,
               common: seq<Key>, forwardOrder: seq<Key>, deleteOrder: seq<Key>, placement: Placement)
    returns (d: Diff, s: Sequenced)
    requires Inputs(from, to, fromRank, toRank, fromDescendants, toDescendants, common, forwardOrder, deleteOrder)
    requires Comparable(from, to)
    ensures Ranked(from, fromRank) && Ranked(to, toRank) && ConsistentKeys(to) && PassesReady(from, to, s)
    ensures KeysFirst(to, toRank, s.forward.keys, NewOrChangedKeys(from, to))
    ensures placement == BeforeAncestors ==> LeavesFirst(to, toRank, s.forward.keys)
    ensures LeavesFirst(from, fromRank, s.deletes.keys)
    ensures d.newKeys == to.nodes.Keys - from.nodes.Keys && d.changed == ChangedKeys(from, to)
    ensures s.forward == AssembleChangesWith(to, toRank, toDescendants, placement, d.newKeys, d.changed, forwardOrder)
    ensures GenerateSqlChanges(from, to, fromRank, toRank, fromDescendants, toDescendants, common, forwardOrder, deleteOrder, placement) ==
      Ok(Emit(AllPasses(from, to, s, d.depChanges)).ops)
  {
    d := GenerateDiff(from, to, common).value;
    assert d.changed == ChangedKeys(from, to);
    s := Sequence(from, to, fromRank, toRank, fromDescendants, toDescendants, d, forwardOrder, deleteOrder, placement);
  }

  /** Lines 143-165: walking the assembled keys backwards, a new or changed
      item is created or altered after every one of its ancestors that is.
      With the corrected placement this holds of every item; as written, a
      dependent that a changed item pulls in can be altered before the
      creation of another of its ancestors. */
  lemma ForwardParentsFirst(from: Graph, to: Graph, fromRank: map<Key, nat>, toRank: map<Key, nat>,
                            fromDescendants: map<Key, seq<Key>>, toDescendants: map<Key, seq<Key>>,
                            common: seq<Key>, forwardOrder: seq<Key>, deleteOrder: seq<Key>, placement: Placement)
    requires Inputs(from, to, fromRank, toRank, fromDescendants, toDescendants, common, forwardOrder, deleteOrder)
    requires Comparable(from, to)
    ensures var r := GenerateSqlChanges(from, to, fromRank, toRank, fromDescendants, toDescendants, common, forwardOrder, deleteOrder, placement);
      r.Ok? && forall i, j | 0 <= i < j < |r.value| && OfPass(Apply, r.value[i].op) && OfPass(Apply, r.value[j].op) &&
                             (placement == BeforeAncestors || r.value[i].key in NewOrChangedKeys(from, to)) ::
        r.value[i].key in to.nodeMap && r.value[j].key !in Ancestors(to, toRank, r.value[i].key)
  {
    var d, s := Stages(from, to, fromRank, toRank, fromDescendants, toDescendants, common, forwardOrder, deleteOrder, placement);
    var ops := GenerateSqlChanges(from, to, fromRank, toRank, fromDescendants, toDescendants, common, forwardOrder, deleteOrder, placement).value;
    var all := if placement == BeforeAncestors then to.nodeMap.Keys else NewOrChangedKeys(from, to);
    assert KeysFirst(to, toRank, s.forward.keys, all);
    forall i, j | 0 <= i < j < |ops| && OfPass(Apply, ops[i].op) && OfPass(Apply, ops[j].op) &&
                  (placement == BeforeAncestors || ops[i].key in NewOrChangedKeys(from, to))
      ensures ops[i].key in to.nodeMap && ops[j].key !in Ancestors(to, toRank, ops[i].key)
    {
      PlanApplyOrder(from, to, toRank, s, d.depChanges, all, i, j);
    }
  }

  /** Lines 120-137: the reverse pass walks the assembled keys in order, so a
      changed item is rolled back before every one of its ancestors that is.
      With the corrected placement this holds of every item; as written, a
      dependent that a changed item pulls in can be rolled back after another
      of its ancestors. */
  lemma ReverseLeavesFirst(from: Graph, to: Graph, fromRank: map<Key, nat>, toRank: map<Key, nat>,
                           fromDescendants: map<Key, seq<Key>>, toDescendants: map<Key, seq<Key>>,
                           common: seq<Key>, forwardOrder: seq<Key>, deleteOrder: seq<Key>, placement: Placement)
    requires Inputs(from, to, fromRank, toRank, fromDescendants, toDescendants, common, forwardOrder, deleteOrder)
    requires Comparable(from, to)
    ensures var r := GenerateSqlChanges(from, to, fromRank, toRank, fromDescendants, toDescendants, common, forwardOrder, deleteOrder, placement);
      r.Ok? && forall i, j | 0 <= i < j < |r.value| && OfPass(RollBack, r.value[i].op) && OfPass(RollBack, r.value[j].op) &&
                             (placement == BeforeAncestors || r.value[j].key in NewOrChangedKeys(from, to)) ::
        r.value[j].key in to.nodeMap && r.value[i].key !in Ancestors(to, toRank, r.value[j].key)
  {
    var d, s := Stages(from, to, fromRank, toRank, fromDescendants, toDescendants, common, forwardOrder, deleteOrder, placement);
    var ops := GenerateSqlChanges(from, to, fromRank, toRank, fromDescendants, toDescendants, common, forwardOrder, deleteOrder, placement).value;
    var all := if placement == BeforeAncestors then to.nodeMap.Keys else NewOrChangedKeys(from, to);
    assert KeysFirst(to, toRank, s.forward.keys, all);
    forall i, j | 0 <= i < j < |ops| && OfPass(RollBack, ops[i].op) && OfPass(RollBack, ops[j].op) &&
                  (placement == BeforeAncestors || ops[j].key in NewOrChangedKeys(from, to))
      ensures ops[j].key in to.nodeMap && ops[i].key !in Ancestors(to, toRank, ops[j].key)
    {
      PlanRollBackOrder(from, to, toRank, s, d.depChanges, all, i, j);
    }
  }

  /** Lines 186-196: deleted items are dropped from leaves to roots of the
      from-state, each before every one of its deleted ancestors, with either
      placement: nothing is resolved among them. */
  lemma DeleteLeavesFirst(from: Graph, to: Graph, fromRank: map<Key, nat>, toRank: map<Key, nat>,
                          fromDescendants: map<Key, seq<Key>>, toDescendants: map<Key, seq<Key>>,
                          common: seq<Key>, forwardOrder: seq<Key>, deleteOrder: seq<Key>, placement: Placement)
    requires Inputs(from, to, fromRank, toRank, fromDescendants, toDescendants, common, forwardOrder, deleteOrder)
    requires Comparable(from, to)
    ensures var r := GenerateSqlChanges(from, to, fromRank, toRank, fromDescendants, toDescendants, common, forwardOrder, deleteOrder, placement);
      r.Ok? && forall i, j | 0 <= i < j < |r.value| && OfPass(Drop, r.value[i].op) && OfPass(Drop, r.value[j].op) ::
        r.value[j].key in from.nodeMap && r.value[i].key !in Ancestors(from, fromRank, r.value[j].key)
  {
    var d, s := Stages(from, to, fromRank, toRank, fromDescendants, toDescendants, common, forwardOrder, deleteOrder, placement);
    var ops := GenerateSqlChanges(from, to, fromRank, toRank, fromDescendants, toDescendants, common, forwardOrder, deleteOrder, placement).value;
    forall i, j | 0 <= i < j < |ops| && OfPass(Drop, ops[i].op) && OfPass(Drop, ops[j].op)
      ensures ops[j].key in from.nodeMap && ops[i].key !in Ancestors(from, fromRank, ops[j].key)
    {
      PlanDropOrder(from, to, fromRank, s, d.depChanges, i, j);
    }
  }
}
