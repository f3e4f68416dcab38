/** What `generate_sql_changes` (migrate_sql/autodetector.py:198-236) emits for
    one item, by the item's fate: created, re-applied, dropped, or left alone
    with at most a dependency update. Each holds under either placement. */
module Outcome {
  import opened Base
  import opened SqlPayload
  import opened StateGraph
  import opened Closure
  import opened Differ
  import opened Assemble
  import opened Registry
  import opened Passes
  import opened Detector

  /** The keys a pass walks: the forward keys in order, backwards, and the
      delete keys. */
  function Walk(s: Sequenced, pass: Pass): seq<Key> {
    match pass
    case RollBack => s.forward.keys
    case Apply => Reverse(s.forward.keys)
    case Drop => s.deletes.keys
  }

  lemma WalkPlan(from: Graph, to: Graph, s: Sequenced, pass: Pass)
    requires PassesReady(from, to, s)
    ensures forall k | k in Walk(s, pass) :: Ready(from, to, s.forward.resolve, pass, k)
    ensures PassPlan(from, to, s, pass) == Plan(from, to, s.forward.resolve, pass, Walk(s, pass))
  {
  }

  /** A request of a pass's class is that pass's entry for its key. */
  lemma EntryAt(from: Graph, to: Graph, s: Sequenced, deltas: seq<DepChange>, pass: Pass, i: nat)
    requires PassesReady(from, to, s)
    requires var plan := AllPasses(from, to, s, deltas); i < |plan| && OfPass(pass, plan[i].op)
    ensures var x := AllPasses(from, to, s, deltas)[i];
      x.key in Walk(s, pass) && Ready(from, to, s.forward.resolve, pass, x.key) &&
      Entry(from, to, s.forward.resolve, pass, x.key) == Some(x)
  {
    var a := InPass(from, to, s, deltas, pass, i);
    WalkPlan(from, to, s, pass);
    var p := PassPlan(from, to, s, pass);
    assert p[a] in p;
  }

  /** Every entry a pass asks for on a key it walks is requested. */
  lemma EntryPresent(from: Graph, to: Graph, s: Sequenced, deltas: seq<DepChange>, pass: Pass, k: Key)
    requires PassesReady(from, to, s) && k in Walk(s, pass)
    ensures Ready(from, to, s.forward.resolve, pass, k)
    ensures Entry(from, to, s.forward.resolve, pass, k).Some? ==>
      Entry(from, to, s.forward.resolve, pass, k).value in AllPasses(from, to, s, deltas)
  {
    WalkPlan(from, to, s, pass);
  }

  /** Two requests of the same pass are for different keys. */
  lemma EntryOnce(from: Graph, to: Graph, s: Sequenced, deltas: seq<DepChange>, pass: Pass, i: nat, j: nat)
    requires PassesReady(from, to, s) && NoDups(s.forward.keys) && NoDups(s.deletes.keys)
    requires var plan := AllPasses(from, to, s, deltas);
      i < j < |plan| && OfPass(pass, plan[i].op) && OfPass(pass, plan[j].op)
    ensures var plan := AllPasses(from, to, s, deltas); plan[i].key != plan[j].key
  {
    var a := InPass(from, to, s, deltas, pass, i);
    var b := InPass(from, to, s, deltas, pass, j);
    WalkPlan(from, to, s, pass);
    ReverseNoDups(s.forward.keys);
    PlanOncePerKey(from, to, s.forward.resolve, pass, Walk(s, pass));
  }

  /** A dependency update comes from one of the recorded deltas. */
  lemma StateEntryAt(from: Graph, to: Graph, s: Sequenced, deltas: seq<DepChange>, i: nat)
    requires PassesReady(from, to, s)
    requires var plan := AllPasses(from, to, s, deltas); i < |plan| && plan[i].op.AlterSqlState?
    ensures exists t | t in deltas ::
      AllPasses(from, to, s, deltas)[i] == Planned(t.key, AlterSqlState(t.key.name, t.added, t.removed), {t.key})
  {
    var changed := s.forward.resolve;
    var p1, p2, p3 := PassPlan(from, to, s, RollBack), PassPlan(from, to, s, Apply), PassPlan(from, to, s, Drop);
    var p4 := StatePlan(deltas);
    PlanOfPass(from, to, changed, RollBack, s.forward.keys);
    PlanOfPass(from, to, changed, Apply, Reverse(s.forward.keys));
    PlanOfPass(from, to, changed, Drop, s.deletes.keys);
    Locate(p1, p2, p3, p4, i);
    var x := AllPasses(from, to, s, deltas)[i];
    assert x in p4;
    var m :| 0 <= m < |p4| && p4[m] == x;
    assert deltas[m] in deltas;
  }

  /** Every recorded delta is requested. */
  lemma StateEntryPresent(from: Graph, to: Graph, s: Sequenced, deltas: seq<DepChange>, t: DepChange)
    requires PassesReady(from, to, s) && t in deltas
    ensures Planned(t.key, AlterSqlState(t.key.name, t.added, t.removed), {t.key}) in AllPasses(from, to, s, deltas)
  {
    var m :| 0 <= m < |deltas| && deltas[m] == t;
    var p4 := StatePlan(deltas);
    assert p4[m] in p4;
  }

  /** `ops` emits the requests of `plan` one for one. */
  ghost predicate Mirrors(ops: seq<Emitted>, plan: seq<Planned>) {
    |ops| == |plan| &&
    forall i | 0 <= i < |ops| :: ops[i].key == plan[i].key && ops[i].op == plan[i].op && ops[i].deps.Keys == plan[i].depKeys
  }

  /** The detection of a successful run, stage by stage: the diff, the two
      assembled lists, and the requests that were emitted one for one. */
  lemma Unfold(from: Graph, to: Graph, fromRank: map<Key, nat>, toRank: map<Key, nat>,
               fromDescendants: map<Key, seq<Key>>, toDescendants: map<Key, seq<Key>>,
               common: seq<Key>, forwardOrder: seq<Key>, deleteOrder: seq<Key>, placement: Placement) returns (d: Diff, s: Sequenced)
    requires Inputs(from, to, fromRank, toRank, fromDescendants, toDescendants, common, forwardOrder, deleteOrder)
    requires Comparable(from, to)
    ensures GenerateDiff(from, to, common) == Ok(d)
    ensures PassesReady(from, to, s) && NoDups(s.forward.keys) && NoDups(s.deletes.keys)
    ensures Elems(s.forward.keys) == d.newKeys + s.forward.resolve && Elems(s.forward.keys) <= to.nodes.Keys
    ensures s.forward.resolve <= from.nodes.Keys * to.nodes.Keys
    ensures s.forward.resolve == d.changed + PulledBy(to, toRank, d.changed, d.changed, d.newKeys + d.changed)
    ensures Elems(s.deletes.keys) == d.deleteKeys
    ensures forall t | t in d.depChanges ::
      t.key in from.nodes && t.key in to.nodes && t == Delta(from, to, t.key) && DepsDiffer(from, to, t.key)
    ensures Mirrors(GenerateSqlChanges(from, to, fromRank, toRank, fromDescendants, toDescendants, common, forwardOrder, deleteOrder, placement).value,
                    AllPasses(from, to, s, d.depChanges))
  {
    d := GenerateDiff(from, to, common).value;
    assert d.changed == ChangedKeys(from, to);
    forall t | t in d.depChanges ensures DepsDiffer(from, to, t.key) {
      assert exists t' | t' in d.depChanges :: t'.key == t.key;
    }
    s := Sequence(from, to, fromRank, toRank, fromDescendants, toDescendants, d, forwardOrder, deleteOrder, placement);
  }

  /** An item that is rolled back and re-applied: changed itself, or in both
      states and a dependent in the to-state of a changed item that is not
      replaced in place. */
  ghost predicate Reapplied(from: Graph, to: Graph, toRank: map<Key, nat>, k: Key)
    requires Ranked(to, toRank)
  {
    k in from.nodes && k in to.nodes &&
    (Changed(from, to, k) ||
     exists c | Changed(from, to, c) && !to.nodes[c].replace :: k in Descendants(to, toRank, c))
  }

  /** The resolve set that `assemble_changes` grows `changed_keys` into holds
      exactly the re-applied items. */
  lemma ResolveIsReapplied(from: Graph, to: Graph, toRank: map<Key, nat>, d: Diff, resolve: set<Key>, k: Key)
    requires Ranked(to, toRank)
    requires d.newKeys == to.nodes.Keys - from.nodes.Keys
    requires forall c :: c in d.changed <==> Changed(from, to, c)
    requires resolve == d.changed + PulledBy(to, toRank, d.changed, d.changed, d.newKeys + d.changed)
    requires resolve <= from.nodes.Keys * to.nodes.Keys
    ensures k in resolve <==> Reapplied(from, to, toRank, k)
  {
    if Reapplied(from, to, toRank, k) && !Changed(from, to, k) {
      var c :| Changed(from, to, c) && !to.nodes[c].replace && k in Descendants(to, toRank, c);
      assert c in d.changed && k !in d.newKeys + d.changed;
    }
  }
  /** The `AlterSQL` a re-applied item gets (lines 148-165): undone by the old
      SQL and keeping the new reverse SQL for the state when replaced in place,
      undone by the new reverse SQL otherwise. */
  function Alteration(from: Graph, to: Graph, k: Key): Operation
    requires k in from.nodes && k in to.nodes
  {
    var next := to.nodes[k];
    if next.replace then AlterSql(k.name, next.sql, from.nodes[k].sql, Some(next.reverseSql))
    else AlterSql(k.name, next.sql, next.reverseSql, None)
  }

  /** The `CreateSQL` a new item gets (lines 145-147). */
  function Creation(to: Graph, k: Key): Operation
    requires k in to.nodes && k in to.nodeMap
  {
    CreateSql(k.name, to.nodes[k].sql, to.nodes[k].reverseSql, to.nodeMap[k].parents)
  }

  /** The `ReverseAlterSQL` that rolls a re-applied item back (lines 131-137). */
  function Undo(from: Graph, k: Key): Operation
    requires k in from.nodes
  {
    ReverseAlterSql(k.name, from.nodes[k].reverseSql, from.nodes[k].sql)
  }

  /** The `DeleteSQL` a deleted item gets (lines 191-196). */
  function Deletion(from: Graph, k: Key): Operation
    requires k in from.nodes
  {
    DeleteSql(k.name, from.nodes[k].reverseSql, from.nodes[k].sql)
  }

  /** The `AlterSQLState` an item whose dependencies changed gets (lines 179-184). */
  function StateChange(from: Graph, to: Graph, k: Key): Operation {
    AlterSqlState(k.name, Delta(from, to, k).added, Delta(from, to, k).removed)
  }

  /** Line 130: an item with a reverse SQL that is not empty or noop, and not
      replaced in place in the to-state. */
  predicate RollsBackItem(from: Graph, to: Graph, k: Key)
    requires k in from.nodes && k in to.nodes
  {
    Truthy(from.nodes[k].reverseSql) && from.nodes[k].reverseSql != Noop && !to.nodes[k].replace
  }

  /** A `ReverseAlterSQL` request is for a key being resolved that rolls
      back, after its from-state dependents. */
  lemma UndoAt(from: Graph, to: Graph, s: Sequenced, deltas: seq<DepChange>, i: nat)
    requires PassesReady(from, to, s)
    requires var plan := AllPasses(from, to, s, deltas); i < |plan| && plan[i].op.ReverseAlterSql?
    ensures var x := AllPasses(from, to, s, deltas)[i];
      x.key in s.forward.resolve && x.key in from.nodes && x.key in to.nodes && x.key in from.nodeMap &&
      RollsBackItem(from, to, x.key) && x == Planned(x.key, Undo(from, x.key), from.nodeMap[x.key].children + {x.key})
  {
    EntryAt(from, to, s, deltas, RollBack, i);
  }

  /** A `CreateSQL` or `AlterSQL` request is for a forward key: an alteration
      if the key is being resolved, a creation otherwise, after its to-state
      parents. */
  lemma ApplyAt(from: Graph, to: Graph, s: Sequenced, deltas: seq<DepChange>, i: nat)
    requires PassesReady(from, to, s) && s.forward.resolve <= from.nodes.Keys * to.nodes.Keys
    requires var plan := AllPasses(from, to, s, deltas); i < |plan| && (plan[i].op.CreateSql? || plan[i].op.AlterSql?)
    ensures var x := AllPasses(from, to, s, deltas)[i];
      x.key in Elems(s.forward.keys) && x.key in to.nodes && x.key in to.nodeMap &&
      (x.key in s.forward.resolve ==> x == Planned(x.key, Alteration(from, to, x.key), to.nodeMap[x.key].parents + {x.key})) &&
      (x.key !in s.forward.resolve ==> x == Planned(x.key, Creation(to, x.key), to.nodeMap[x.key].parents + {x.key}))
  {
    EntryAt(from, to, s, deltas, Apply, i);
    ReverseElems(s.forward.keys);
  }

  /** A `DeleteSQL` request is for a delete key, after its from-state
      dependents. */
  lemma DeleteAt(from: Graph, to: Graph, s: Sequenced, deltas: seq<DepChange>, i: nat)
    requires PassesReady(from, to, s)
    requires var plan := AllPasses(from, to, s, deltas); i < |plan| && plan[i].op.DeleteSql?
    ensures var x := AllPasses(from, to, s, deltas)[i];
      x.key in Elems(s.deletes.keys) && x.key in from.nodes && x.key in from.nodeMap &&
      x == Planned(x.key, Deletion(from, x.key), from.nodeMap[x.key].children + {x.key})
  {
    EntryAt(from, to, s, deltas, Drop, i);
  }

  /** An `AlterSQLState` request carries the delta of an item in both states. */
  lemma StateAt(from: Graph, to: Graph, s: Sequenced, deltas: seq<DepChange>, i: nat)
    requires PassesReady(from, to, s)
    requires forall t | t in deltas ::
      t.key in from.nodes && t.key in to.nodes && t == Delta(from, to, t.key) && DepsDiffer(from, to, t.key)
    requires var plan := AllPasses(from, to, s, deltas); i < |plan| && plan[i].op.AlterSqlState?
    ensures var x := AllPasses(from, to, s, deltas)[i];
      x.key in from.nodes && x.key in to.nodes && DepsDiffer(from, to, x.key) &&
      x == Planned(x.key, StateChange(from, to, x.key), {x.key})
  {
    StateEntryAt(from, to, s, deltas, i);
  }

  /** The forward pass asks once for a key it re-applies. */
  lemma AlterationPresent(from: Graph, to: Graph, s: Sequenced, deltas: seq<DepChange>, k: Key)
    requires PassesReady(from, to, s) && k in s.forward.resolve && k in s.forward.keys
    requires k in from.nodes && k in to.nodes
    ensures Ready(from, to, s.forward.resolve, Apply, k)
    ensures Planned(k, Alteration(from, to, k), to.nodeMap[k].parents + {k}) in AllPasses(from, to, s, deltas)
  {
    ReverseElems(s.forward.keys);
    EntryPresent(from, to, s, deltas, Apply, k);
  }

  /** A request for a key being re-applied and not deleted is no creation and
      no deletion, and any alteration is the one above. */
  lemma AlterationOnly(from: Graph, to: Graph, s: Sequenced, deltas: seq<DepChange>, k: Key, i: nat)
    requires PassesReady(from, to, s) && k in s.forward.resolve && k !in s.deletes.keys
    requires k in from.nodes && k in to.nodes
    requires var plan := AllPasses(from, to, s, deltas); i < |plan| && plan[i].key == k
    ensures var op := AllPasses(from, to, s, deltas)[i].op;
      !op.CreateSql? && !op.DeleteSql? && (op.AlterSql? ==> op == Alteration(from, to, k))
  {
    var op := AllPasses(from, to, s, deltas)[i].op;
    if op.CreateSql? || op.AlterSql? {
      EntryAt(from, to, s, deltas, Apply, i);
    } else if op.DeleteSql? {
      EntryAt(from, to, s, deltas, Drop, i);
    }
  }

  /** A re-applied item is altered, after its to-state parents, and neither
      created nor deleted. */
  lemma ReappliedItemAltered(from: Graph, to: Graph, fromRank: map<Key, nat>, toRank: map<Key, nat>,
                             fromDescendants: map<Key, seq<Key>>, toDescendants: map<Key, seq<Key>>,
                             common: seq<Key>, forwardOrder: seq<Key>, deleteOrder: seq<Key>, placement: Placement, k: Key)
    requires Inputs(from, to, fromRank, toRank, fromDescendants, toDescendants, common, forwardOrder, deleteOrder)
    requires Comparable(from, to)
    requires Reapplied(from, to, toRank, k)
    ensures var ops := GenerateSqlChanges(from, to, fromRank, toRank, fromDescendants, toDescendants, common, forwardOrder, deleteOrder, placement).value;
      (exists i | 0 <= i < |ops| ::
         ops[i].key == k && ops[i].op == Alteration(from, to, k) && ops[i].deps.Keys == to.nodeMap[k].parents + {k}) &&
      forall i | 0 <= i < |ops| && ops[i].key == k ::
        !ops[i].op.CreateSql? && !ops[i].op.DeleteSql? && (ops[i].op.AlterSql? ==> ops[i].op == Alteration(from, to, k))
  {
    var d, s := Unfold(from, to, fromRank, toRank, fromDescendants, toDescendants, common, forwardOrder, deleteOrder, placement);
    var ops := GenerateSqlChanges(from, to, fromRank, toRank, fromDescendants, toDescendants, common, forwardOrder, deleteOrder, placement).value;
    var plan := AllPasses(from, to, s, d.depChanges);
    ResolveIsReapplied(from, to, toRank, d, s.forward.resolve, k);
    assert k in Elems(s.forward.keys) && k !in Elems(s.deletes.keys);
    AlterationPresent(from, to, s, d.depChanges, k);
    var m :| 0 <= m < |plan| && plan[m] == Planned(k, Alteration(from, to, k), to.nodeMap[k].parents + {k});
    assert ops[m].key == k && ops[m].op == Alteration(from, to, k);
    forall i | 0 <= i < |ops| && ops[i].key == k
      ensures !ops[i].op.CreateSql? && !ops[i].op.DeleteSql? && (ops[i].op.AlterSql? ==> ops[i].op == Alteration(from, to, k))
    {
      AlterationOnly(from, to, s, d.depChanges, k, i);
    }
  }

  /** A re-applied item is rolled back exactly when its old reverse SQL is
      neither empty nor noop and it is not replaced in place, by its old reverse
      SQL, after its from-state dependents. */
  lemma ReappliedItemRolledBack(from: Graph, to: Graph, fromRank: map<Key, nat>, toRank: map<Key, nat>,
                                fromDescendants: map<Key, seq<Key>>, toDescendants: map<Key, seq<Key>>,
                                common: seq<Key>, forwardOrder: seq<Key>, deleteOrder: seq<Key>, placement: Placement, k: Key)
    requires Inputs(from, to, fromRank, toRank, fromDescendants, toDescendants, common, forwardOrder, deleteOrder)
    requires Comparable(from, to)
    requires Reapplied(from, to, toRank, k)
    ensures var ops := GenerateSqlChanges(from, to, fromRank, toRank, fromDescendants, toDescendants, common, forwardOrder, deleteOrder, placement).value;
      ((exists i | 0 <= i < |ops| :: ops[i].key == k && ops[i].op.ReverseAlterSql?) <==> RollsBackItem(from, to, k)) &&
      forall i | 0 <= i < |ops| && ops[i].key == k && ops[i].op.ReverseAlterSql? ::
        ops[i].op == Undo(from, k) && ops[i].deps.Keys == from.nodeMap[k].children + {k}
  {
    var d, s := Unfold(from, to, fromRank, toRank, fromDescendants, toDescendants, common, forwardOrder, deleteOrder, placement);
    ResolveIsReapplied(from, to, toRank, d, s.forward.resolve, k);
    PlanRolledBack(from, to, s, d.depChanges, k);
    MirrorRolledBack(GenerateSqlChanges(from, to, fromRank, toRank, fromDescendants, toDescendants, common, forwardOrder, deleteOrder, placement).value,
                     AllPasses(from, to, s, d.depChanges), k, Planned(k, Undo(from, k), from.nodeMap[k].children + {k}),
                     RollsBackItem(from, to, k));
  }

  /** `k` has exactly one request in `plan`, and it is `x`. */
  ghost predicate Sole(plan: seq<Planned>, k: Key, x: Planned) {
    (exists i | 0 <= i < |plan| :: plan[i].key == k) &&
    (forall i | 0 <= i < |plan| && plan[i].key == k :: plan[i] == x) &&
    forall i, j | 0 <= i < j < |plan| :: plan[i].key != k || plan[j].key != k
  }

  /** A key with one request has one operation, carrying that request. */
  lemma MirrorSole(ops: seq<Emitted>, plan: seq<Planned>, k: Key, x: Planned)
    requires Mirrors(ops, plan) && Sole(plan, k, x)
    ensures exists i | 0 <= i < |ops| :: ops[i].key == k
    ensures forall i | 0 <= i < |ops| && ops[i].key == k :: ops[i].op == x.op && ops[i].deps.Keys == x.depKeys
    ensures forall i, j | 0 <= i < j < |ops| :: ops[i].key != k || ops[j].key != k
  {
    var m :| 0 <= m < |plan| && plan[m].key == k;
    assert ops[m].key == k;
  }

  /** What the requests say about the roll-back of `k`, the operations say. */
  lemma MirrorRolledBack(ops: seq<Emitted>, plan: seq<Planned>, k: Key, x: Planned, rolls: bool)
    requires Mirrors(ops, plan)
    requires (exists i | 0 <= i < |plan| :: plan[i].key == k && plan[i].op.ReverseAlterSql?) <==> rolls
    requires forall i | 0 <= i < |plan| && plan[i].key == k && plan[i].op.ReverseAlterSql? :: plan[i] == x
    ensures (exists i | 0 <= i < |ops| :: ops[i].key == k && ops[i].op.ReverseAlterSql?) <==> rolls
    ensures forall i | 0 <= i < |ops| && ops[i].key == k && ops[i].op.ReverseAlterSql? ::
      ops[i].op == x.op && ops[i].deps.Keys == x.depKeys
  {
    if rolls {
      var m :| 0 <= m < |plan| && plan[m].key == k && plan[m].op.ReverseAlterSql?;
      assert ops[m].key == k && ops[m].op.ReverseAlterSql?;
    }
  }

  /** The reverse pass asks for a re-applied key exactly when it rolls back,
      and then for its undo. */
  lemma PlanRolledBack(from: Graph, to: Graph, s: Sequenced, deltas: seq<DepChange>, k: Key)
    requires PassesReady(from, to, s) && k in s.forward.resolve && k in Elems(s.forward.keys)
    requires k in from.nodes && k in to.nodes && k in from.nodeMap
    ensures var plan := AllPasses(from, to, s, deltas);
      ((exists i | 0 <= i < |plan| :: plan[i].key == k && plan[i].op.ReverseAlterSql?) <==> RollsBackItem(from, to, k)) &&
      forall i | 0 <= i < |plan| && plan[i].key == k && plan[i].op.ReverseAlterSql? ::
        plan[i] == Planned(k, Undo(from, k), from.nodeMap[k].children + {k})
  {
    var plan := AllPasses(from, to, s, deltas);
    if RollsBackItem(from, to, k) {
      assert k in Walk(s, RollBack);
      EntryPresent(from, to, s, deltas, RollBack, k);
      var x := Planned(k, Undo(from, k), from.nodeMap[k].children + {k});
      var m :| 0 <= m < |plan| && plan[m] == x;
      assert x.op.ReverseAlterSql?;
    }
    forall i | 0 <= i < |plan| && plan[i].key == k && plan[i].op.ReverseAlterSql?
      ensures RollsBackItem(from, to, k) && plan[i] == Planned(k, Undo(from, k), from.nodeMap[k].children + {k})
    {
      UndoAt(from, to, s, deltas, i);
    }
  }

  /** A new item gets exactly one operation: its `CreateSQL`, after its
      to-state parents. */
  lemma NewItemCreated(from: Graph, to: Graph, fromRank: map<Key, nat>, toRank: map<Key, nat>,
                       fromDescendants: map<Key, seq<Key>>, toDescendants: map<Key, seq<Key>>,
                       common: seq<Key>, forwardOrder: seq<Key>, deleteOrder: seq<Key>, placement: Placement, k: Key)
    requires Inputs(from, to, fromRank, toRank, fromDescendants, toDescendants, common, forwardOrder, deleteOrder)
    requires Comparable(from, to)
    requires k in to.nodes && k !in from.nodes
    ensures var ops := GenerateSqlChanges(from, to, fromRank, toRank, fromDescendants, toDescendants, common, forwardOrder, deleteOrder, placement).value;
      (exists i | 0 <= i < |ops| :: ops[i].key == k) &&
      (forall i | 0 <= i < |ops| && ops[i].key == k ::
         ops[i].op == Creation(to, k) && ops[i].deps.Keys == to.nodeMap[k].parents + {k}) &&
      forall i, j | 0 <= i < j < |ops| :: ops[i].key != k || ops[j].key != k
  {
    var d, s := Unfold(from, to, fromRank, toRank, fromDescendants, toDescendants, common, forwardOrder, deleteOrder, placement);
    assert k in d.newKeys && k in Elems(s.forward.keys) && k !in s.forward.resolve;
    PlanNewItem(from, to, s, d.depChanges, k);
    MirrorSole(GenerateSqlChanges(from, to, fromRank, toRank, fromDescendants, toDescendants, common, forwardOrder, deleteOrder, placement).value,
               AllPasses(from, to, s, d.depChanges), k, Planned(k, Creation(to, k), to.nodeMap[k].parents + {k}));
  }

  /** The requests for a new item: its creation, once. */
  lemma PlanNewItem(from: Graph, to: Graph, s: Sequenced, deltas: seq<DepChange>, k: Key)
    requires PassesReady(from, to, s) && NoDups(s.forward.keys) && NoDups(s.deletes.keys)
    requires s.forward.resolve <= from.nodes.Keys * to.nodes.Keys && Elems(s.deletes.keys) <= from.nodes.Keys
    requires forall t | t in deltas ::
      t.key in from.nodes && t.key in to.nodes && t == Delta(from, to, t.key) && DepsDiffer(from, to, t.key)
    requires k in to.nodes && k !in from.nodes && k in Elems(s.forward.keys)
    ensures k in to.nodeMap && Sole(AllPasses(from, to, s, deltas), k, Planned(k, Creation(to, k), to.nodeMap[k].parents + {k}))
  {
    var plan := AllPasses(from, to, s, deltas);
    ReverseElems(s.forward.keys);
    EntryPresent(from, to, s, deltas, Apply, k);
    var x := Planned(k, Creation(to, k), to.nodeMap[k].parents + {k});
    var m :| 0 <= m < |plan| && plan[m] == x;
    assert plan[m].key == k;
    forall i | 0 <= i < |plan| && plan[i].key == k ensures plan[i] == x {
      NewItemRequest(from, to, s, deltas, k, i);
    }
    forall i, j | 0 <= i < j < |plan| ensures plan[i].key != k || plan[j].key != k {
      if plan[i].key == k && plan[j].key == k {
        NewItemRequest(from, to, s, deltas, k, i);
        NewItemRequest(from, to, s, deltas, k, j);
        EntryOnce(from, to, s, deltas, Apply, i, j);
      }
    }
  }

  /** Every request for a new item is its creation. */
  lemma NewItemRequest(from: Graph, to: Graph, s: Sequenced, deltas: seq<DepChange>, k: Key, i: nat)
    requires PassesReady(from, to, s) && s.forward.resolve <= from.nodes.Keys * to.nodes.Keys
    requires Elems(s.deletes.keys) <= from.nodes.Keys
    requires forall t | t in deltas ::
      t.key in from.nodes && t.key in to.nodes && t == Delta(from, to, t.key) && DepsDiffer(from, to, t.key)
    requires k in to.nodes && k !in from.nodes
    requires var plan := AllPasses(from, to, s, deltas); i < |plan| && plan[i].key == k
    ensures k in to.nodeMap && AllPasses(from, to, s, deltas)[i] == Planned(k, Creation(to, k), to.nodeMap[k].parents + {k})
  {
    var op := AllPasses(from, to, s, deltas)[i].op;
    match op
    case ReverseAlterSql(_, _, _) => UndoAt(from, to, s, deltas, i);
    case CreateSql(_, _, _, _) => ApplyAt(from, to, s, deltas, i);
    case AlterSql(_, _, _, _) => ApplyAt(from, to, s, deltas, i);
    case DeleteSql(_, _, _) => DeleteAt(from, to, s, deltas, i);
    case AlterSqlState(_, _, _) => StateAt(from, to, s, deltas, i);
  }

  /** Every request for a deleted item is its deletion. */
  lemma DeletedItemRequest(from: Graph, to: Graph, s: Sequenced, deltas: seq<DepChange>, k: Key, i: nat)
    requires PassesReady(from, to, s) && s.forward.resolve <= from.nodes.Keys * to.nodes.Keys
    requires Elems(s.forward.keys) <= to.nodes.Keys
    requires forall t | t in deltas ::
      t.key in from.nodes && t.key in to.nodes && t == Delta(from, to, t.key) && DepsDiffer(from, to, t.key)
    requires k in from.nodes && k !in to.nodes
    requires var plan := AllPasses(from, to, s, deltas); i < |plan| && plan[i].key == k
    ensures k in from.nodeMap && AllPasses(from, to, s, deltas)[i] == Planned(k, Deletion(from, k), from.nodeMap[k].children + {k})
  {
    var op := AllPasses(from, to, s, deltas)[i].op;
    match op
    case ReverseAlterSql(_, _, _) => UndoAt(from, to, s, deltas, i);
    case CreateSql(_, _, _, _) => ApplyAt(from, to, s, deltas, i);
    case AlterSql(_, _, _, _) => ApplyAt(from, to, s, deltas, i);
    case DeleteSql(_, _, _) => DeleteAt(from, to, s, deltas, i);
    case AlterSqlState(_, _, _) => StateAt(from, to, s, deltas, i);
  }

  /** A deleted item gets exactly one operation: its `DeleteSQL`, after its
      from-state dependents. */
  lemma DeletedItemDropped(from: Graph, to: Graph, fromRank: map<Key, nat>, toRank: map<Key, nat>,
                           fromDescendants: map<Key, seq<Key>>, toDescendants: map<Key, seq<Key>>,
                           common: seq<Key>, forwardOrder: seq<Key>, deleteOrder: seq<Key>, placement: Placement, k: Key)
    requires Inputs(from, to, fromRank, toRank, fromDescendants, toDescendants, common, forwardOrder, deleteOrder)
    requires Comparable(from, to)
    requires k in from.nodes && k !in to.nodes
    ensures var ops := GenerateSqlChanges(from, to, fromRank, toRank, fromDescendants, toDescendants, common, forwardOrder, deleteOrder, placement).value;
      (exists i | 0 <= i < |ops| :: ops[i].key == k) &&
      (forall i | 0 <= i < |ops| && ops[i].key == k ::
         ops[i].op == Deletion(from, k) && ops[i].deps.Keys == from.nodeMap[k].children + {k}) &&
      forall i, j | 0 <= i < j < |ops| :: ops[i].key != k || ops[j].key != k
  {
    var d, s := Unfold(from, to, fromRank, toRank, fromDescendants, toDescendants, common, forwardOrder, deleteOrder, placement);
    assert k in d.deleteKeys && k in Elems(s.deletes.keys);
    PlanDeletedItem(from, to, s, d.depChanges, k);
    MirrorSole(GenerateSqlChanges(from, to, fromRank, toRank, fromDescendants, toDescendants, common, forwardOrder, deleteOrder, placement).value,
               AllPasses(from, to, s, d.depChanges), k, Planned(k, Deletion(from, k), from.nodeMap[k].children + {k}));
  }

  /** The requests for a deleted item: its deletion, once. */
  lemma PlanDeletedItem(from: Graph, to: Graph, s: Sequenced, deltas: seq<DepChange>, k: Key)
    requires PassesReady(from, to, s) && NoDups(s.forward.keys) && NoDups(s.deletes.keys)
    requires s.forward.resolve <= from.nodes.Keys * to.nodes.Keys && Elems(s.forward.keys) <= to.nodes.Keys
    requires forall t | t in deltas ::
      t.key in from.nodes && t.key in to.nodes && t == Delta(from, to, t.key) && DepsDiffer(from, to, t.key)
    requires k in from.nodes && k !in to.nodes && k in Elems(s.deletes.keys)
    ensures k in from.nodeMap && Sole(AllPasses(from, to, s, deltas), k, Planned(k, Deletion(from, k), from.nodeMap[k].children + {k}))
  {
    var plan := AllPasses(from, to, s, deltas);
    assert k in Walk(s, Drop);
    EntryPresent(from, to, s, deltas, Drop, k);
    var x := Planned(k, Deletion(from, k), from.nodeMap[k].children + {k});
    var m :| 0 <= m < |plan| && plan[m] == x;
    assert plan[m].key == k;
    forall i | 0 <= i < |plan| && plan[i].key == k ensures plan[i] == x {
      DeletedItemRequest(from, to, s, deltas, k, i);
    }
    forall i, j | 0 <= i < j < |plan| ensures plan[i].key != k || plan[j].key != k {
      if plan[i].key == k && plan[j].key == k {
        DeletedItemRequest(from, to, s, deltas, k, i);
        DeletedItemRequest(from, to, s, deltas, k, j);
        EntryOnce(from, to, s, deltas, Drop, i, j);
      }
    }
  }

  /** The `AlterSQLState` requests for an item in both states: present exactly
      when its dependencies changed, and carrying its delta. */
  lemma PlanStateUpdate(from: Graph, to: Graph, s: Sequenced, deltas: seq<DepChange>, k: Key)
    requires PassesReady(from, to, s)
    requires forall t | t in deltas ::
      t.key in from.nodes && t.key in to.nodes && t == Delta(from, to, t.key) && DepsDiffer(from, to, t.key)
    requires DepsDiffer(from, to, k) <==> exists t | t in deltas :: t.key == k
    ensures var plan := AllPasses(from, to, s, deltas);
      ((exists i | 0 <= i < |plan| :: plan[i].key == k && plan[i].op.AlterSqlState?) <==> DepsDiffer(from, to, k)) &&
      forall i | 0 <= i < |plan| && plan[i].key == k && plan[i].op.AlterSqlState? ::
        plan[i] == Planned(k, StateChange(from, to, k), {k})
  {
    var plan := AllPasses(from, to, s, deltas);
    var x := Planned(k, StateChange(from, to, k), {k});
    if DepsDiffer(from, to, k) {
      var t :| t in deltas && t.key == k;
      StateEntryPresent(from, to, s, deltas, t);
      var m :| 0 <= m < |plan| && plan[m] == x;
      assert x.op.AlterSqlState?;
    }
    forall i | 0 <= i < |plan| && plan[i].key == k && plan[i].op.AlterSqlState?
      ensures DepsDiffer(from, to, k) && plan[i] == x
    {
      StateAt(from, to, s, deltas, i);
    }
  }

  /** What the requests say about the dependency updates of `k`, the
      operations say. */
  lemma MirrorStateUpdate(ops: seq<Emitted>, plan: seq<Planned>, k: Key, x: Planned, differ: bool)
    requires Mirrors(ops, plan)
    requires (exists i | 0 <= i < |plan| :: plan[i].key == k && plan[i].op.AlterSqlState?) <==> differ
    requires forall i | 0 <= i < |plan| && plan[i].key == k && plan[i].op.AlterSqlState? :: plan[i] == x
    ensures (exists i | 0 <= i < |ops| :: ops[i].key == k && ops[i].op.AlterSqlState?) <==> differ
    ensures forall i | 0 <= i < |ops| && ops[i].key == k && ops[i].op.AlterSqlState? ::
      ops[i].op == x.op && ops[i].deps.Keys == x.depKeys
  {
    if differ {
      var m :| 0 <= m < |plan| && plan[m].key == k && plan[m].op.AlterSqlState?;
      assert ops[m].key == k && ops[m].op.AlterSqlState?;
    }
  }

  /** Lines 179-184: an item in both states gets an `AlterSQLState` exactly
      when its registered dependencies changed, recording the added and removed
      ones, after the item alone. */
  lemma ItemDependenciesUpdated(from: Graph, to: Graph, fromRank: map<Key, nat>, toRank: map<Key, nat>,
                                fromDescendants: map<Key, seq<Key>>, toDescendants: map<Key, seq<Key>>,
                                common: seq<Key>, forwardOrder: seq<Key>, deleteOrder: seq<Key>, placement: Placement, k: Key)
    requires Inputs(from, to, fromRank, toRank, fromDescendants, toDescendants, common, forwardOrder, deleteOrder)
    requires Comparable(from, to)
    requires k in from.nodes && k in to.nodes
    ensures var ops := GenerateSqlChanges(from, to, fromRank, toRank, fromDescendants, toDescendants, common, forwardOrder, deleteOrder, placement).value;
      ((exists i | 0 <= i < |ops| :: ops[i].key == k && ops[i].op.AlterSqlState?) <==> DepsDiffer(from, to, k)) &&
      forall i | 0 <= i < |ops| && ops[i].key == k && ops[i].op.AlterSqlState? ::
        ops[i].op == StateChange(from, to, k) && ops[i].deps.Keys == {k}
  {
    var d, s := Unfold(from, to, fromRank, toRank, fromDescendants, toDescendants, common, forwardOrder, deleteOrder, placement);
    PlanStateUpdate(from, to, s, d.depChanges, k);
    MirrorStateUpdate(GenerateSqlChanges(from, to, fromRank, toRank, fromDescendants, toDescendants, common, forwardOrder, deleteOrder, placement).value,
                      AllPasses(from, to, s, d.depChanges), k, Planned(k, StateChange(from, to, k), {k}), DepsDiffer(from, to, k));
  }

  /** Every request for an item in both states that is not re-applied is a
      dependency update. */
  lemma UntouchedRequest(from: Graph, to: Graph, s: Sequenced, deltas: seq<DepChange>, k: Key, i: nat)
    requires PassesReady(from, to, s) && s.forward.resolve <= from.nodes.Keys * to.nodes.Keys
    requires k in from.nodes && k in to.nodes && k !in s.forward.resolve
    requires k !in Elems(s.forward.keys) && k !in Elems(s.deletes.keys)
    requires var plan := AllPasses(from, to, s, deltas); i < |plan| && plan[i].key == k
    ensures AllPasses(from, to, s, deltas)[i].op.AlterSqlState?
  {
    var op := AllPasses(from, to, s, deltas)[i].op;
    match op
    case ReverseAlterSql(_, _, _) => UndoAt(from, to, s, deltas, i);
    case CreateSql(_, _, _, _) => ApplyAt(from, to, s, deltas, i);
    case AlterSql(_, _, _, _) => ApplyAt(from, to, s, deltas, i);
    case DeleteSql(_, _, _) => DeleteAt(from, to, s, deltas, i);
    case AlterSqlState(_, _, _) =>
  }

  /** An item in both states that is not re-applied gets nothing but
      dependency updates: no roll-back, creation, alteration or deletion. */
  lemma UntouchedItemOnlyUpdated(from: Graph, to: Graph, fromRank: map<Key, nat>, toRank: map<Key, nat>,
                                 fromDescendants: map<Key, seq<Key>>, toDescendants: map<Key, seq<Key>>,
                                 common: seq<Key>, forwardOrder: seq<Key>, deleteOrder: seq<Key>, placement: Placement, k: Key)
    requires Inputs(from, to, fromRank, toRank, fromDescendants, toDescendants, common, forwardOrder, deleteOrder)
    requires Comparable(from, to)
    requires k in from.nodes && k in to.nodes && !Reapplied(from, to, toRank, k)
    ensures var ops := GenerateSqlChanges(from, to, fromRank, toRank, fromDescendants, toDescendants, common, forwardOrder, deleteOrder, placement).value;
      forall i | 0 <= i < |ops| && ops[i].key == k :: ops[i].op.AlterSqlState?
  {
    var d, s := Unfold(from, to, fromRank, toRank, fromDescendants, toDescendants, common, forwardOrder, deleteOrder, placement);
    ResolveIsReapplied(from, to, toRank, d, s.forward.resolve, k);
    assert k !in Elems(s.forward.keys) && k !in Elems(s.deletes.keys);
    var ops := GenerateSqlChanges(from, to, fromRank, toRank, fromDescendants, toDescendants, common, forwardOrder, deleteOrder, placement).value;
    forall i | 0 <= i < |ops| && ops[i].key == k ensures ops[i].op.AlterSqlState? {
      UntouchedRequest(from, to, s, d.depChanges, k, i);
    }
  }

  /** Each of the reverse, forward and delete passes emits at most one
      operation per item. */
  lemma PassOncePerItem(from: Graph, to: Graph, fromRank: map<Key, nat>, toRank: map<Key, nat>,
                        fromDescendants: map<Key, seq<Key>>, toDescendants: map<Key, seq<Key>>,
                        common: seq<Key>, forwardOrder: seq<Key>, deleteOrder: seq<Key>, placement: Placement, pass: Pass)
    requires Inputs(from, to, fromRank, toRank, fromDescendants, toDescendants, common, forwardOrder, deleteOrder)
    requires Comparable(from, to)
    ensures var r := GenerateSqlChanges(from, to, fromRank, toRank, fromDescendants, toDescendants, common, forwardOrder, deleteOrder, placement);
      r.Ok? && forall i, j | 0 <= i < j < |r.value| && OfPass(pass, r.value[i].op) && OfPass(pass, r.value[j].op) ::
        r.value[i].key != r.value[j].key
  {
    var d, s := Unfold(from, to, fromRank, toRank, fromDescendants, toDescendants, common, forwardOrder, deleteOrder, placement);
    var ops := GenerateSqlChanges(from, to, fromRank, toRank, fromDescendants, toDescendants, common, forwardOrder, deleteOrder, placement).value;
    forall i, j | 0 <= i < j < |ops| && OfPass(pass, ops[i].op) && OfPass(pass, ops[j].op)
      ensures ops[i].key != ops[j].key
    {
      EntryOnce(from, to, s, d.depChanges, pass, i, j);
    }
  }

  /** Two identical states, all of whose payloads are well formed, differ in
      nothing. */
  lemma NoChangeDiff(g: Graph, common: seq<Key>)
    requires Enumerates(common, g.nodes.Keys * g.nodes.Keys)
    requires forall k | k in g.nodes :: Normalize(g.nodes[k].sql).Ok?
    ensures GenerateDiff(g, g, common) == Ok(Diff({}, {}, {}, []))
  {
    forall k | k in g.nodes ensures IsSqlEqual(g.nodes[k].sql, g.nodes[k].sql) == Ok(true) {
      IsSqlEqualReflexive(g.nodes[k].sql);
    }
    var d := GenerateDiff(g, g, common).value;
    assert d.newKeys == {} && d.deleteKeys == {} && d.changed == {};
    assert forall t | t in d.depChanges :: !DepsDiffer(g, g, t.key);
    HeadIn(d.depChanges);
  }

  /** With nothing to assemble and no delta, no pass asks for anything. */
  lemma EmptyPlan(from: Graph, to: Graph, s: Sequenced)
    requires PassesReady(from, to, s) && Elems(s.forward.keys) == {} && Elems(s.deletes.keys) == {}
    ensures AllPasses(from, to, s, []) == []
  {
    EmptyElems(s.forward.keys);
    EmptyElems(s.deletes.keys);
  }

  lemma EmptyElems(s: seq<Key>)
    ensures Elems(s) == {} <==> s == []
  {
    if s != [] {
      assert s[0] in Elems(s);
    }
  }

  lemma HeadIn<T>(s: seq<T>)
    ensures s == [] || s[0] in s
  {
  }

  /** Two identical states, all of whose payloads are well formed, yield no
      operation. */
  lemma NoChangeEmitsNothing(g: Graph, rank: map<Key, nat>, descendants: map<Key, seq<Key>>, common: seq<Key>,
                             placement: Placement)
    requires WellFormed(g, rank) && Listings(g, rank, descendants)
    requires Enumerates(common, g.nodes.Keys * g.nodes.Keys)
    requires forall k | k in g.nodes :: Normalize(g.nodes[k].sql).Ok?
    ensures GenerateSqlChanges(g, g, rank, rank, descendants, descendants, common, [], [], placement) == Ok([])
  {
    NoChangeDiff(g, common);
    var none: set<Key> := {};
    assert Enumerates([], none + none) && Enumerates([], none);
    var d, s := Unfold(g, g, rank, rank, descendants, descendants, common, [], [], placement);
    assert PulledBy(g, rank, {}, {}, {} + {}) == {};
    EmptyPlan(g, g, s);
  }
}
