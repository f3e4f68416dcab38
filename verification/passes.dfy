/** The four emitting passes of the detector (migrate_sql/autodetector.py):
    `_generate_reversed_sql`, `_generate_sql`, `_generate_delete_sql` and
    `_generate_altered_sql_dependencies`. Each pass walks a list of keys and
    asks for at most one operation per key; what it asks for is `Entry`. */
module Passes {
  import opened Base
  import opened SqlPayload
  import opened StateGraph
  import opened Differ
  import opened Registry

  /** The three passes over assembled keys. */
  datatype Pass = RollBack | Apply | Drop

  /** `RunSQL.noop`, Django's empty SQL. */
  const Noop: Val := Str("")

  /** What a pass reads about `k` is there. */
  predicate Ready(from: Graph, to: Graph, changed: set<Key>, pass: Pass, k: Key) {
    match pass
    case RollBack => k in changed ==> k in from.nodes && k in from.nodeMap && k in to.nodes
    case Apply => k in to.nodes && k in to.nodeMap && (k in changed && to.nodes[k].replace ==> k in from.nodes)
    case Drop => k in from.nodes && k in from.nodeMap
  }

  /** A changed item is rolled back first unless its old reverse SQL is empty
      or noop, or it is now replaced in place (line 130). */
  predicate RollsBack(from: Graph, to: Graph, changed: set<Key>, k: Key)
    requires Ready(from, to, changed, RollBack, k)
  {
    k in changed && Truthy(from.nodes[k].reverseSql) && from.nodes[k].reverseSql != Noop && !to.nodes[k].replace
  }

  /** The operation a pass asks for on `k`.
      Lines 124-137: `ReverseAlterSQL` runs the old reverse SQL, undone by the
      old SQL, after the item's dependents in the from-state and the item.
      Lines 143-165: `AlterSQL` for a changed item (in replace mode undone by the
      old SQL, with the new reverse SQL kept for the state), `CreateSQL` for any
      other, after the item's parents in the to-state and the item.
      Lines 190-196: `DeleteSQL` runs the old reverse SQL, undone by the old SQL,
      after the item's dependents in the from-state and the item. */
  function Entry(from: Graph, to: Graph, changed: set<Key>, pass: Pass, k: Key): Option<Planned>
    requires Ready(from, to, changed, pass, k)
  {
    match pass
    case RollBack =>
      if RollsBack(from, to, changed, k) then
        var prev := from.nodes[k];
        Some(Planned(k, ReverseAlterSql(k.name, prev.reverseSql, prev.sql), from.nodeMap[k].children + {k}))
      else None
    case Apply =>
      var next := to.nodes[k];
      var parents := to.nodeMap[k].parents;
      var op :=
        if k !in changed then CreateSql(k.name, next.sql, next.reverseSql, parents)
        else if next.replace then AlterSql(k.name, next.sql, from.nodes[k].sql, Some(next.reverseSql))
        else AlterSql(k.name, next.sql, next.reverseSql, None);
      Some(Planned(k, op, parents + {k}))
    case Drop =>
      var prev := from.nodes[k];
      Some(Planned(k, DeleteSql(k.name, prev.reverseSql, prev.sql), from.nodeMap[k].children + {k}))
  }

  /** A pass over `keys`, in order: exactly the requested operations, each for a
      key of the walk. */
  function Plan(from: Graph, to: Graph, changed: set<Key>, pass: Pass, keys: seq<Key>): (r: seq<Planned>)
    requires forall k | k in keys :: Ready(from, to, changed, pass, k)
    ensures forall p | p in r :: p.key in keys && Entry(from, to, changed, pass, p.key) == Some(p)
    ensures forall k | k in keys && Entry(from, to, changed, pass, k).Some? ::
      Entry(from, to, changed, pass, k).value in r
    decreases |keys|
  {
    if keys == [] then []
    else
      var rest := Plan(from, to, changed, pass, keys[1..]);
      match Entry(from, to, changed, pass, keys[0])
      case Some(p) => [p] + rest
      case None => rest
  }

  /** The requests of `r` come in the order their keys occur in `keys`. */
  ghost predicate Ordered(keys: seq<Key>, r: seq<Planned>) {
    forall i, j | 0 <= i < j < |r| :: Before(keys, r[i].key, r[j].key)
  }

  /** Walking one more key at the front keeps the requests in order. */
  lemma OrderedCons(keys: seq<Key>, rest: seq<Planned>, r: seq<Planned>)
    requires |keys| > 0 && Ordered(keys[1..], rest) && forall p | p in rest :: p.key in keys[1..]
    requires r == rest || (|r| > 0 && r[0].key == keys[0] && r[1..] == rest)
    ensures Ordered(keys, r)
  {
    var tail := keys[1..];
    if r == rest {
      forall i, j | 0 <= i < j < |r| ensures Before(keys, r[i].key, r[j].key) {
        BeforeTail(keys, r[i].key, r[j].key);
      }
    } else {
      forall i, j | 0 <= i < j < |r| ensures Before(keys, r[i].key, r[j].key) {
        assert r[j] == rest[j - 1] && rest[j - 1] in rest;
        if i == 0 {
          BeforeHead(keys, r[j].key);
        } else {
          assert r[i] == rest[i - 1];
          BeforeTail(keys, r[i].key, r[j].key);
        }
      }
    }
  }

  /** The operation classes a pass emits. */
  predicate OfPass(pass: Pass, op: Operation) {
    match pass
    case RollBack => op.ReverseAlterSql?
    case Apply => op.CreateSql? || op.AlterSql?
    case Drop => op.DeleteSql?
  }

  /** The reverse pass emits only `ReverseAlterSQL`, the forward pass only
      `CreateSQL` and `AlterSQL`, the delete pass only `DeleteSQL`. */
  lemma PlanOfPass(from: Graph, to: Graph, changed: set<Key>, pass: Pass, keys: seq<Key>)
    requires forall k | k in keys :: Ready(from, to, changed, pass, k)
    ensures forall p | p in Plan(from, to, changed, pass, keys) :: OfPass(pass, p.op)
  {
  }

  /** A pass asks in the order it walks. */
  lemma {:induction false} PlanInOrder(from: Graph, to: Graph, changed: set<Key>, pass: Pass, keys: seq<Key>)
    requires forall k | k in keys :: Ready(from, to, changed, pass, k)
    ensures Ordered(keys, Plan(from, to, changed, pass, keys))
    decreases |keys|
  {
    if keys != [] {
      PlanInOrder(from, to, changed, pass, keys[1..]);
      OrderedCons(keys, Plan(from, to, changed, pass, keys[1..]), Plan(from, to, changed, pass, keys));
    }
  }

  /** Over a walk without repeats, a pass asks at most once per key. */
  lemma PlanOncePerKey(from: Graph, to: Graph, changed: set<Key>, pass: Pass, keys: seq<Key>)
    requires forall k | k in keys :: Ready(from, to, changed, pass, k)
    requires NoDups(keys)
    ensures var r := Plan(from, to, changed, pass, keys);
      forall i, j | 0 <= i < j < |r| :: r[i].key != r[j].key
  {
    PlanInOrder(from, to, changed, pass, keys);
    var r := Plan(from, to, changed, pass, keys);
    forall i, j | 0 <= i < j < |r| ensures r[i].key != r[j].key {
      assert Before(keys, r[i].key, r[j].key);
    }
  }

  /** Lines 179-184: `AlterSQLState` with the added and removed dependencies,
      after the item alone. */
  function StatePlan(deltas: seq<DepChange>): (r: seq<Planned>)
    ensures |r| == |deltas|
    ensures forall i | 0 <= i < |deltas| :: r[i].key == deltas[i].key && r[i].depKeys == {deltas[i].key}
    ensures forall i | 0 <= i < |deltas| ::
      r[i].op.AlterSqlState? && r[i].op.name == deltas[i].key.name &&
      r[i].op.addDependencies == deltas[i].added && r[i].op.removeDependencies == deltas[i].removed
  {
    seq(|deltas|, i requires 0 <= i < |deltas| =>
      var d := deltas[i];
      Planned(d.key, AlterSqlState(d.key.name, d.added, d.removed), {d.key}))
  }
}
