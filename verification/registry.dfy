/** The operation registry of `add_sql_operation` and `check_dependency`
    (migrate_sql/autodetector.py): every operation is emitted with, for each of
    its dependency keys, a reference to the last operation already emitted for
    that key, and the registry then points the operation's own key at it. An
    operation is identified by its position in the emitted list. */
module Registry {
  import opened Base
  import opened SqlPayload

  /** The five operation classes the detector builds; their constructor
      arguments, by name. */
  datatype Operation =
    | ReverseAlterSql(name: string, sql: Val, reverseSql: Val)
    | AlterSql(name: string, sql: Val, reverseSql: Val, stateReverseSql: Option<Val>)
    | CreateSql(name: string, sql: Val, reverseSql: Val, dependencies: set<Key>)
    | DeleteSql(name: string, sql: Val, reverseSql: Val)
    | AlterSqlState(name: string, addDependencies: set<Key>, removeDependencies: set<Key>)

  /** An operation a pass asks to emit for `key`, with the keys it must follow. */
  datatype Planned = Planned(key: Key, op: Operation, depKeys: set<Key>)

  /** An emitted operation. `deps` maps each dependency key to the position of
      the operation it must follow, or `None` when nothing was emitted for that
      key before: the `(app, SQL_BLOB, name, operation)` tuples of line 115. */
  datatype Emitted = Emitted(key: Key, op: Operation, deps: map<Key, Option<nat>>)

  /** The emitted list and the registry `_sql_operations`. */
  datatype Emission = Emission(ops: seq<Emitted>, last: map<Key, nat>)

  /** `dict.get`: the registered position, or `None`. */
  function Lookup(m: map<Key, nat>, k: Key): Option<nat> {
    if k in m then Some(m[k]) else None
  }

  /** The position of the last operation in `ops` emitted for `k`. */
  function LastOp(ops: seq<Emitted>, k: Key): (r: Option<nat>)
    ensures r.Some? ==> r.value < |ops| && ops[r.value].key == k &&
                        forall j | r.value < j < |ops| :: ops[j].key != k
    ensures r.None? ==> forall j | 0 <= j < |ops| :: ops[j].key != k
    decreases |ops|
  {
    if ops == [] then None
    else if ops[|ops| - 1].key == k then Some(|ops| - 1)
    else LastOp(ops[..|ops| - 1], k)
  }

  /** The registry points every key at the last operation emitted for it. */
  ghost predicate RegistryAgrees(e: Emission) {
    forall k :: Lookup(e.last, k) == LastOp(e.ops, k)
  }

  /** Every operation follows exactly the last operation emitted before it for
      each of its dependency keys. */
  ghost predicate Chained(ops: seq<Emitted>) {
    forall i, k | 0 <= i < |ops| && k in ops[i].deps :: ops[i].deps[k] == LastOp(ops[..i], k)
  }

  /** Lines 110-118: resolve the dependency keys against the registry, emit,
      then register the operation under its own key. */
  function AddSqlOperation(e: Emission, p: Planned): (r: Emission)
    requires RegistryAgrees(e)
    ensures RegistryAgrees(r)
    ensures |r.ops| == |e.ops| + 1 && r.ops[..|e.ops|] == e.ops
    ensures var o := r.ops[|e.ops|];
      o.key == p.key && o.op == p.op && o.deps.Keys == p.depKeys &&
      forall k | k in o.deps :: o.deps[k] == LastOp(e.ops, k)
  {
    var deps := map k | k in p.depKeys :: Lookup(e.last, k);
    var ops := e.ops + [Emitted(p.key, p.op, deps)];
    var r := Emission(ops, e.last[p.key := |e.ops|]);
    assert ops[..|e.ops|] == e.ops;
    forall k ensures Lookup(r.last, k) == LastOp(ops, k) {
      assert LastOp(ops, k) == if k == p.key then Some(|e.ops|) else LastOp(e.ops, k);
    }
    r
  }

  /** The passes' requests emitted one after another from an empty registry
      (line 232). */
  function Emit(plan: seq<Planned>): (r: Emission)
    ensures RegistryAgrees(r) && Chained(r.ops)
    ensures |r.ops| == |plan|
    ensures forall i | 0 <= i < |plan| ::
      r.ops[i].key == plan[i].key && r.ops[i].op == plan[i].op && r.ops[i].deps.Keys == plan[i].depKeys
    decreases |plan|
  {
    if plan == [] then Emission([], map[])
    else
      var e := Emit(plan[..|plan| - 1]);
      var r := AddSqlOperation(e, plan[|plan| - 1]);
      ChainedSnoc(e.ops, r.ops[|e.ops|]);
      assert r.ops == e.ops + [r.ops[|e.ops|]];
      r
  }

  /** Appending an operation resolved against the list keeps the list chained. */
  lemma ChainedSnoc(ops: seq<Emitted>, o: Emitted)
    requires Chained(ops) && forall k | k in o.deps :: o.deps[k] == LastOp(ops, k)
    ensures Chained(ops + [o])
  {
    var s := ops + [o];
    forall i, k | 0 <= i < |s| && k in s[i].deps ensures s[i].deps[k] == LastOp(s[..i], k) {
      if i < |ops| {
        assert s[..i] == ops[..i] && s[i] == ops[i];
      } else {
        assert s[..i] == ops;
      }
    }
  }

  /** Line 245: an operation satisfies an SQL dependency exactly when it is the
      operation the dependency was resolved to. */
  function CheckDependency(dep: Option<nat>, candidate: nat): bool {
    dep == Some(candidate)
  }

  /** In a chained list, operation `i`'s dependency on `k` is satisfied by
      operation `j` exactly when `j` is the last operation for `k` before `i`. */
  lemma CheckDependencyMatchesLast(ops: seq<Emitted>, i: nat, k: Key, j: nat)
    requires Chained(ops) && i < |ops| && k in ops[i].deps
    ensures CheckDependency(ops[i].deps[k], j) <==>
            j < i && ops[j].key == k && forall m | j < m < i :: ops[m].key != k
  {
    var d := ops[i].deps[k];
    assert d == LastOp(ops[..i], k);
    if j < i && ops[j].key == k && (forall m | j < m < i :: ops[m].key != k) {
      assert ops[..i][j].key == k;
    }
  }

  /** The registry's references only ever point backwards. */
  lemma DependenciesPointBack(ops: seq<Emitted>, i: nat, k: Key)
    requires Chained(ops) && i < |ops| && k in ops[i].deps && ops[i].deps[k].Some?
    ensures ops[i].deps[k].value < i && ops[ops[i].deps[k].value].key == k
  {
    assert ops[i].deps[k] == LastOp(ops[..i], k);
  }

  /** Line 115: a dependency resolves to `None` exactly when nothing was
      emitted for its key before. */
  lemma NoneIffNothingBefore(ops: seq<Emitted>, i: nat, k: Key)
    requires Chained(ops) && i < |ops| && k in ops[i].deps
    ensures ops[i].deps[k] == None <==> forall j | 0 <= j < i :: ops[j].key != k
  {
    assert ops[i].deps[k] == LastOp(ops[..i], k);
    assert forall j | 0 <= j < i :: ops[..i][j] == ops[j];
  }
}
