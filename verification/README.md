# django-migrate-sql: change detection, modelled in Dafny

django-migrate-sql lets Django apps declare raw-SQL items: functions, types, views, triggers. Each item has a forward SQL, an optional reverse SQL, a list of items it depends on, and a `replace` flag. When `makemigrations` runs, the tool compares the SQL state recorded by earlier migrations with the state the apps declare now, and emits five kinds of operation:

- `CreateSQL` for new items;
- `DeleteSQL` for removed items;
- `ReverseAlterSQL` followed by `AlterSQL` for changed items;
- `AlterSQLState` for items whose dependency lists changed.

Each operation is chained to the last operation emitted for each item it must follow.

This project models that core and proves properties of it:

- **Payload comparison** (`SqlPayload`): `_sql_params` and `is_sql_equal`, over a small universe of Python values (strings, integers, `None`, lists, tuples).
- **Item declaration** (`Config`): `SQLItem` with its defaults.
- **The state graph** (`StateGraph`): `add_node`, `remove_node`, the lazy-dependency operations and `build_graph`. A graph is `nodes` (key to item), `nodeMap` (key to parent and child key sets) and `dependencies` (the `defaultdict(set)` of registered parents).
- **Reading the declared state** (`CurrentGraph`): the loops of `build_current_graph`.
- **Ancestors and descendants** (`Closure`): defined over an acyclic graph. A rank map witnesses that the graph has no cycle.
- **The diff** (`Differ`, `Detector.GenerateDiff`): the new, deleted and changed keys and the dependency deltas.
- **Ordering** (`Assemble`): `assemble_changes`, as written and corrected (see Findings). A `Placement` value picks between them: `AtChangedKey` is the insertion at line 105 as written, and `BeforeAncestors` the corrected one.
- **Emission** (`Passes`, `Registry`, `Detector.GenerateSqlChanges`):
  - the four emitting passes;
  - `add_sql_operation` with its `_sql_operations` registry;
  - the SQL_BLOB branch of `check_dependency`.
- **End-to-end results** (`Outcome`, `EndToEnd`): what `generate_sql_changes` emits for each kind of item, under either placement, and what the placement as written emits on a state where the two differ.

Python sets and dicts are iterated in an order the language does not fix. Wherever the source iterates one, the model takes the order as a parameter constrained to enumerate the set, and each property is proved for every such order. Django's `Node.ancestors()` and `descendants()` are modelled as the sets they denote. The listing order of `descendants()` is a parameter, the same way.

`Detector.GenerateSqlChanges` takes the placement as a parameter. With `AtChangedKey` it is the code as written; every property in `Outcome`, and the chaining of dependencies, is proved for both placements. The order properties differ. As written, only the new and changed items are guaranteed to come after their ancestors when created or altered, and before them when rolled back. Only with `BeforeAncestors` does this hold for every item, including the dependents a changed item pulls in. `EndToEnd.ShopRuns` and `Scenarios.AssembleChangesAsWrittenMisordersChain` show states where the code as written breaks it.

An emitted operation is identified by its position in the emitted list. A dependency `(app, SQL_BLOB, name, operation)` is the position of the operation it was resolved to, or `None`.

The model follows the code where the code goes beyond its description. When a changed item that is not `replace` pulls in a dependent, `assemble_changes` adds that dependent to `changed_keys`. The dependent is therefore rolled back and also re-applied with an `AlterSQL`, not just rolled back. `Outcome.Reapplied` names exactly those items; `Outcome.ResolveIsReapplied` and `Outcome.ReappliedItemAltered` state the consequence.

## Model

| member | source | states |
|---|---|---|
| Base.Insert | migrate_sql/autodetector.py:98 | `list.insert(i, x)`: one element longer, `x` at `i`, the elements before `i` unchanged and those from `i` on shifted by one |
| Base.Reverse | migrate_sql/autodetector.py:143 | `reversed(lst)`: same length, element `i` is element `n-1-i` of the input |
| SqlPayload.SqlParams | migrate_sql/autodetector.py:18-30 | a non-sequence is a statement with `None` parameters; a two-element list or tuple is `(sql, params)`; any other arity raises the `ValueError` with that arity |
| SqlPayload.SqlParamsElement | migrate_sql/autodetector.py:18-30 | splitting the payload element written for a statement gives that statement back (round trip) |
| SqlPayload.NormalizeAll | migrate_sql/autodetector.py:54-56 | splitting a list of elements succeeds exactly when every element splits, and then yields each element's statement in place |
| SqlPayload.PairwiseEqual | migrate_sql/autodetector.py:54-59 | the zip loop answers true exactly when every pair splits and agrees; when both sides split it answers whether the statement lists are equal; it raises only if some element does not split |
| SqlPayload.IsSqlEqual | migrate_sql/autodetector.py:33-59 | different statement counts compare unequal; well-formed payloads compare equal exactly when their statement lists are equal; true implies both normalise to the same statements; it raises only on a malformed element |
| SqlPayload.NormalizeAgree | migrate_sql/autodetector.py:54-59 | two lists that agree pair by pair normalise to the same statements |
| SqlPayload.PairwiseEqualFalse | migrate_sql/autodetector.py:54-58 | the loop answers false exactly when some position is the first difference, with everything before it splitting and agreeing |
| SqlPayload.PairwiseEqualErr | migrate_sql/autodetector.py:54-56 | the loop raises error `e` exactly when some position is the first element that does not split (left side checked first), with `e` its error |
| SqlPayload.PairwiseEqualStops | migrate_sql/autodetector.py:54-58 | both of the above together, for every error |
| SqlPayload.PairwiseEqualSymmetric | migrate_sql/autodetector.py:54-58 | swapping the lists keeps success, and a successful answer |
| SqlPayload.IsSqlEqualSymmetric | migrate_sql/autodetector.py:33-59 | `is_sql_equal(a, b)` succeeds exactly when `is_sql_equal(b, a)` does, and then gives the same answer |
| SqlPayload.IsSqlEqualReflexive | migrate_sql/autodetector.py:33-59 | a well-formed payload equals itself |
| SqlPayload.WrappingIsTransparent | migrate_sql/autodetector.py:46-49 | a bare value equals the one-element list, and the one-element tuple, holding it |
| SqlPayload.NoneParamsAreBare | migrate_sql/autodetector.py:23-30 | `(sql, None)` compares equal to the bare `sql` |
| SqlPayload.NoneParamsDifferFromEmpty | migrate_sql/autodetector.py:57 | `None` parameters differ from an empty parameter list |
| SqlPayload.LengthComparedFirst | migrate_sql/autodetector.py:51-52 | payloads of different lengths compare unequal even when an element is malformed |
| SqlPayload.MalformedElementRaises | migrate_sql/autodetector.py:26-29 | a three-element statement raises with arity 3 |
| SqlPayload.FlatComparisonExamples | tests/test_app/test_utils.py:13-15 | the `test_flat` cases |
| SqlPayload.NestedComparisonExamples | tests/test_app/test_utils.py:17-19 | the `test_nested` cases |
| SqlPayload.ParamComparisonExamples | tests/test_app/test_utils.py:21-25 | the `test_nested_with_params` cases |
| SqlPayload.MixedComparisonExamples | tests/test_app/test_utils.py:27-31 | the `test_mixed_with_params` cases |
| SqlPayload.NestingComparisonExamples | tests/test_app/test_utils.py:33-35 | the `test_mixed_nesting` cases |
| Config.NewSqlItem | migrate_sql/config.py:5-25 | the item keeps name, SQL, reverse SQL and `replace` as given; missing dependencies become the empty list, given ones are kept |
| Config.NewSqlItemDefaults | migrate_sql/config.py:5-25 | an item declared with only name and SQL has no reverse SQL, no dependencies and `replace = False` |
| StateGraph.AddNode | migrate_sql/graph.py:26-29 | the key maps to the item and a fresh node, overwriting; every other key and the registered dependencies are untouched; item and node keys stay in step |
| StateGraph.RemoveNode | migrate_sql/graph.py:19-24 | a key in both maps is removed from both; otherwise the graph is unchanged; nothing else changes |
| StateGraph.AddThenRemove | migrate_sql/graph.py:19-29 | removing a node just added is the same as removing it from the original graph |
| StateGraph.AddLazyDependency | migrate_sql/graph.py:31-35 | the parent joins the child's registered set, creating the entry; no other child's set and no node changes |
| StateGraph.AddLazyDependencyIdempotent | migrate_sql/graph.py:31-35 | registering the same dependency twice is registering it once |
| StateGraph.RemoveLazyDependency | migrate_sql/graph.py:37-41 | succeeds exactly when the parent is registered for the child, then removes only it and keeps the entry; otherwise raises `KeyError` for the parent |
| StateGraph.RemoveUndoesAdd | migrate_sql/graph.py:31-41 | removing a dependency just added to an existing entry that lacked it restores the graph |
| StateGraph.RemoveLazyForChild | migrate_sql/graph.py:43-48 | drops the child's entry, keeps every other entry and the nodes, and is a no-op without an entry |
| StateGraph.RemoveLazyForChildForgets | migrate_sql/graph.py:43-48 | read through the defaultdict, the child then has no dependency, and every other child keeps its own |
| StateGraph.RemoveLazyForChildAfterAdd | migrate_sql/graph.py:31-48 | dropping a child's entry undoes any dependency registered for it just before |
| StateGraph.RemoveLazyForChildIdempotent | migrate_sql/graph.py:43-48 | dropping a child's entry twice is dropping it once |
| StateGraph.LinkRemaining | migrate_sql/graph.py:60-67 | the inner loop, from any point: succeeds exactly when the remaining parents are nodes, and then has linked every registered parent both ways; an error names a dangling key |
| StateGraph.LinkParents | migrate_sql/graph.py:60-67 | the inner loop for one child: succeeds exactly when all its parents are nodes, with every edge of the entry linked both ways |
| StateGraph.ResolveEntry | migrate_sql/graph.py:54-67 | one entry: succeeds exactly when the child and its parents are nodes, and then that entry is resolved |
| StateGraph.ResolveRemaining | migrate_sql/graph.py:54-67 | the outer loop, from any point: succeeds exactly when every entry is resolvable, giving the resolved graph; otherwise the error names a dangling child or parent |
| StateGraph.BuildGraph | migrate_sql/graph.py:50-67 | succeeds exactly when every registered child and parent is a node, and then adds every registered pair as an edge in both directions; otherwise raises `NodeNotFoundError` for a dangling child, or for a dangling parent together with its child's app |
| Closure.Ancestors | migrate_sql/autodetector.py:95 | includes the parents; every ancestor is a node of strictly lower rank |
| Closure.AncestorsIrreflexive | migrate_sql/autodetector.py:95 | no node is its own ancestor (the `[:-1]` that cuts the key itself out) |
| Closure.AncestorsTransitive | migrate_sql/autodetector.py:95 | an ancestor of an ancestor is an ancestor |
| Closure.AncestorsArePaths | migrate_sql/autodetector.py:95 | the ancestors are exactly the keys reached by climbing parent edges |
| Closure.ChildIsDescendant | migrate_sql/autodetector.py:102 | in a well-formed graph every child is a descendant |
| Differ.CompareCommon | migrate_sql/autodetector.py:210-224 | succeeds exactly when every comparison does; then the changed keys are exactly the common keys comparing unequal, and there is a delta for a common key exactly when its dependency sets differ, holding the removed and added sets |
| Differ.CompareCommonFirstError | migrate_sql/autodetector.py:210-216 | a failure is the error of the first comparison that raises, in iteration order |
| Differ.DepChangesInOrder | migrate_sql/autodetector.py:218-224 | the deltas come in the order the common keys are visited |
| Detector.GenerateDiff | migrate_sql/autodetector.py:203-224 | new keys are `to - from`, deleted keys `from - to`; changed keys are exactly the common ones whose forward SQL compares unequal; each delta is a common key's removed and added dependencies, present exactly when they differ; it fails exactly when some comparison raises |
| Detector.DeltaIffNonEmpty | migrate_sql/autodetector.py:221-224 | a delta is recorded exactly when something was removed or added |
| Detector.CompareCommonSqlOnly | migrate_sql/autodetector.py:213-216 | whether an item counts as changed depends on its forward SQL and dependencies only, for any comparison |
| Detector.DiffIgnoresReverseAndReplace | migrate_sql/autodetector.py:213-216 | reverse SQL and `replace` never affect the diff |
| Detector.Sequence | migrate_sql/autodetector.py:229-230 | under either placement: both assembled lists are duplicate-free, the delete list runs from leaves to roots, and the forward list keeps each new or changed key before its listed ancestors; it runs wholly from leaves to roots only with the corrected placement (as written it need not: `Scenarios.AssembleChangesAsWrittenMisorders`); the forward list is the new keys plus the grown resolve set; that set is the changed keys plus the dependents they pull in, all in both states; the delete list is exactly the deleted keys |
| Detector.GenerateSqlChanges | migrate_sql/autodetector.py:198-236 | for either placement (`AtChangedKey` is the code as written): succeeds exactly when every common item's payloads can be compared; the operations are chained, each depending on exactly the last earlier operation for each of its dependency keys |
| Detector.ForwardParentsFirst | migrate_sql/autodetector.py:139-165 | among `CreateSQL` and `AlterSQL` operations, none for a new or changed item is followed by one for an ancestor of that item in the new state, under either placement; with the corrected placement this holds for every item. As written it fails for a pulled-in dependent: `EndToEnd.ShopRuns` |
| Detector.ReverseLeavesFirst | migrate_sql/autodetector.py:120-137 | no `ReverseAlterSQL` for a new or changed item is preceded by one for an ancestor of that item in the new state, under either placement; with the corrected placement this holds for every item. As written it fails for a pulled-in dependent: `Scenarios.AssembleChangesAsWrittenMisordersChain` |
| Detector.DeleteLeavesFirst | migrate_sql/autodetector.py:186-196 | under either placement, `DeleteSQL` operations run from leaves to roots of the old state: none is preceded by one for an ancestor of its item |
| Assemble.FirstIn | migrate_sql/autodetector.py:97 | the first position holding an element of the set, or the length: nothing before it qualifies |
| Assemble.AssembleFoldContents | migrate_sql/autodetector.py:90-108 | the loop lists each key once, together with the dependents pulled in, and the resolve set gains exactly those dependents |
| Assemble.PullInKeysFirst | migrate_sql/autodetector.py:103-107 | as written, inserting dependents at the changed key's position keeps the original keys before their ancestors |
| Assemble.PullInLeavesFirst | migrate_sql/autodetector.py:103-107 | corrected, inserting each dependent before its first listed ancestor keeps every key before its ancestors |
| Assemble.AssembleFoldKeysFirst | migrate_sql/autodetector.py:90-108 | as written, every original key is listed before its listed ancestors |
| Assemble.AssembleFoldLeavesFirst | migrate_sql/autodetector.py:90-108 | corrected, every listed key is before its listed ancestors |
| Assemble.AssembleChangesAsWritten | migrate_sql/autodetector.py:73-108 | as written: keys and resolve keys, each once, with the dependents that non-`replace` resolve keys pull in; the resolve set grows by exactly those; only the original keys are guaranteed to come before their ancestors |
| Assemble.AssembleChanges | migrate_sql/autodetector.py:73-108 | the same list contents and resolve set, with every listed key before all of its listed ancestors, as the docstring promises |
| Assemble.AssembleChangesWith | migrate_sql/autodetector.py:73-108 | either placement lists the same keys once each and grows the resolve set alike, keeping every original key before its listed ancestors; the corrected placement, or either one with nothing to resolve, lists every key before its ancestors |
| Assemble.FoldWithoutResolve | migrate_sql/autodetector.py:90-108 | with nothing to resolve, the loop as written and the corrected loop give the same list, and nothing is pulled in |
| Assemble.NothingToResolve | migrate_sql/autodetector.py:230 | the delete keys, assembled with nothing to resolve, come out the same under both placements |
| Assemble.PulledByResolve | migrate_sql/autodetector.py:100 | only keys being resolved pull dependents in |
| Registry.LastOp | migrate_sql/autodetector.py:115 | the position of the last operation emitted for a key, or `None` when there is none |
| Registry.AddSqlOperation | migrate_sql/autodetector.py:110-118 | appends one operation for the key; each dependency resolves to the last operation registered for it; the registry then points the key at the new operation |
| Registry.Emit | migrate_sql/autodetector.py:110-118 | emitting requests one by one from an empty registry yields one operation per request, in order, with the requested keys and dependencies, chained and with the registry in agreement |
| Registry.ChainedSnoc | migrate_sql/autodetector.py:115-118 | appending an operation resolved against the list keeps it chained |
| Registry.CheckDependencyMatchesLast | migrate_sql/autodetector.py:238-246 | an operation satisfies an SQL_BLOB dependency exactly when it is the last earlier operation for that key |
| Registry.NoneIffNothingBefore | migrate_sql/autodetector.py:115 | a dependency resolves to `None` exactly when no earlier operation was emitted for its key |
| Registry.DependenciesPointBack | migrate_sql/autodetector.py:115 | a resolved dependency points at an earlier operation for the same key |
| Passes.Plan | migrate_sql/autodetector.py:124-137 | a pass asks for exactly the entries of the keys it walks |
| Passes.PlanOfPass | migrate_sql/autodetector.py:120-196 | the reverse pass asks only for `ReverseAlterSQL`, the forward pass only for `CreateSQL`/`AlterSQL`, the delete pass only for `DeleteSQL` |
| Passes.PlanInOrder | migrate_sql/autodetector.py:124 | a pass asks in the order it walks |
| Passes.PlanOncePerKey | migrate_sql/autodetector.py:124 | over a duplicate-free walk a pass asks at most once per key |
| Passes.StatePlan | migrate_sql/autodetector.py:179-184 | one `AlterSQLState` per delta, for its key, depending on that key alone |
| Outcome.ResolveIsReapplied | migrate_sql/autodetector.py:100-107 | the resolve set is exactly the items changed, or in both states and depending on a changed non-`replace` item |
| Outcome.ReappliedItemAltered | migrate_sql/autodetector.py:139-165 | a re-applied item gets its `AlterSQL` (undone by the old SQL and keeping the new reverse SQL when `replace`), depending on its new parents and itself, and is neither created nor deleted |
| Outcome.ReappliedItemRolledBack | migrate_sql/autodetector.py:120-137 | a re-applied item is rolled back exactly when its old reverse SQL is neither empty nor noop and it is not `replace`, running its old reverse SQL and depending on its old dependents and itself |
| Outcome.NewItemCreated | migrate_sql/autodetector.py:139-165 | a new item gets exactly one operation, its `CreateSQL` listing its parents, depending on its parents and itself |
| Outcome.DeletedItemDropped | migrate_sql/autodetector.py:186-196 | a deleted item gets exactly one operation, its `DeleteSQL` running the old reverse SQL, depending on its old dependents and itself |
| Outcome.ItemDependenciesUpdated | migrate_sql/autodetector.py:167-184 | an item in both states gets an `AlterSQLState` exactly when its registered dependencies changed; each carries the added and removed sets and depends on the item alone |
| Outcome.UntouchedItemOnlyUpdated | migrate_sql/autodetector.py:198-236 | an item in both states that is not re-applied gets nothing but `AlterSQLState` |
| Outcome.PassOncePerItem | migrate_sql/autodetector.py:120-196 | each of the reverse, forward and delete passes emits at most one operation per item |
| Outcome.NoChangeEmitsNothing | tests/test_app/test_migrations.py:542-561 | two identical well-formed states yield no operation |
| CurrentGraph.Declarations | migrate_sql/graph.py:78-86 | every declaration is an item of an app that loaded, under the key `(app, item.name)` |
| CurrentGraph.DeclarationsComplete | migrate_sql/graph.py:78-86 | every item of every app that loaded is declared; apps whose config cannot be imported are skipped |
| CurrentGraph.RegisterAll | migrate_sql/graph.py:87-88 | registers every listed dependency of the item and nothing for any other key |
| CurrentGraph.DeclareAll | migrate_sql/graph.py:84-88 | before resolution: one fresh node per declared key, and each key's registered dependencies are the union over all its declarations |
| CurrentGraph.LastDeclarationWins | migrate_sql/graph.py:85 | a key declared again later takes the item of its last declaration |
| CurrentGraph.LastDeclarationsWin | migrate_sql/graph.py:85 | every declared key carries the item of its last declaration |
| CurrentGraph.BuildCurrentGraph | migrate_sql/graph.py:70-90 | succeeds exactly when every listed dependency names a declared item; then the graph has exactly the declared keys with their last items, parents the registered dependencies and children the items registering them; otherwise a `NodeNotFoundError` for an undeclared dependency with the app of an item listing it |
| CurrentGraph.BuildOutcome | migrate_sql/graph.py:89 | `build_graph`'s outcome on the declared graph, restated in terms of the declarations |
| CurrentGraph.ResolvedEdges | migrate_sql/graph.py:89 | the resolved declared graph's parents are the registered dependencies and its children the items registering a key |
| CurrentGraph.UnresolvedIffNotResolvable | migrate_sql/graph.py:89 | `build_graph` can fail on the declared graph exactly when some listed dependency is undeclared |
| CurrentGraph.MissingParentNamesDeclaration | migrate_sql/graph.py:61-65 | the error on the declared graph is always the parent case, naming an undeclared dependency and the app of an item listing it |
| Scenarios.AssembleChangesAsWrittenMisorders | migrate_sql/autodetector.py:103-105 | for any state with a new root `p`, a changed non-replace root `k`, and a single dependent `d` of `k` that also depends on `p`, with `[p, k]` visited, the code as written lists `[p, d, k]`, so `d` comes after its ancestor `p` and the list is not leaves-first |
| Scenarios.AssembleChangesOrdersDiamond | migrate_sql/autodetector.py:97-105 | on the same shape, the corrected placement lists `[d, p, k]` |
| Scenarios.AsWrittenDiamondAssembly | migrate_sql/autodetector.py:97-107 | on that shape, the code as written gives `[p, d, k]` with resolve set `{k, d}` |
| Scenarios.AssembleChangesAsWrittenMisordersChain | migrate_sql/autodetector.py:97-107 | for any state with a new root `r`, a changed root `k`, a changed `a` whose only parent is `r`, and a dependent `x` of both `k` and `a` that each lists alone, with `[r, k, a]` visited, the code as written lists `[a, r, x, k]`: `a` comes before its descendant `x`, so the roll-back pass of lines 124-137 rolls back `a` before `x` |
| Scenarios.AssembleChangesOrdersChain | migrate_sql/autodetector.py:97-107 | on the same shape, the corrected placement lists `[x, a, r, k]` |
| Scenarios.DiamondRuns | migrate_sql/autodetector.py:97-105 | the shop example has that shape: as written it gives `[tax, total_view, price]`, and corrected `[total_view, tax, price]` |

| EndToEnd.AsWrittenAltersBeforeCreating | migrate_sql/autodetector.py:97-165 | on any diamond-shaped change, the code as written emits an `AlterSQL` for the dependent `d`, whose dependency on its new ancestor `p` resolves to `None`, before the `CreateSQL` for `p` |
| EndToEnd.ShopRuns | migrate_sql/autodetector.py:198-236 | on the shop change (`price` altered, `tax` new, `total_view` depending on both), the code as written emits `AlterSQL(total_view)` with its `tax` dependency `None` before `CreateSQL(tax)`; with the corrected placement no creation or alteration precedes one for its ancestor |

## Left out

- Django's `MigrationAutodetector` machinery is left out: `add_operation`, the rest of `check_dependency`, `generate_altered_fields`, `__init__`, and how operations are split into migrations and sorted. The model stops at the emitted list of operations with their dependencies.
- The operation classes of migrate_sql/operations.py are modelled as plain records of their constructor arguments. Their database and state effects are not part of this model.
- The `makemigrations` command and the package `__init__.py` are not part of this model.
- Django's `Node` objects and the `add_parent`/`add_child` lists become sets of keys. `ancestors()` and `descendants()` become the sets they denote, and the order `descendants()` lists them in is a parameter.
- Cycle detection (`CircularDependencyError`, tests/test_app/test_migrations.py:523-540) is left out. Every graph the detector receives carries a rank map that proves it acyclic.
- `settings.INSTALLED_APPS`, `import_module` and the `SQL_CONFIG_MODULE` setting are left out. Each app arrives as its list of items, or as `None` when the import or the `sql_items` lookup fails and the app is skipped.
- Every Python set and dict iteration order is a parameter: `from_keys & to_keys`, `keys | resolve_keys`, the two lists passed to `assemble_changes`, and `dependencies.items()`. `build_graph`'s choice of which dangling key to report follows whatever order it picks.
- The caller of `Detector.GenerateSqlChanges` supplies the iteration orders of the two key sets, and the placement.
- `self._sql_operations = []` in `__init__` is left out. It is always replaced by `{}` before use (line 232).
- `CreateSQL`'s `dependencies` argument is a list in the source and a set here. Its order has no meaning.
- Reading `self.from_sql_graph.dependencies[key]` inserts an empty set into the defaultdict. The model reads without inserting. The resulting empty entries have no effect on any later read.
- Operations are identified by their position in the emitted list, not by Python object identity.
- `SqlPayload.Val` covers strings, integers, `None`, lists and tuples. Other Python values a payload could hold (floats, dicts) are left out.
- `Detector.GenerateDiff` compares payloads with `is_sql_equal`. `Differ.CompareCommon` takes the comparison as a parameter, so its bookkeeping is stated for any comparison.
- Outcome.ItemDependenciesUpdated: states that every `AlterSQLState` for the item carries its delta. It does not state that there is only one such operation.
- Registry.CheckDependencyMatchesLast: states the SQL_BLOB comparison in terms of list positions, so two equal operation objects at different positions count as different.

## Findings

| source | as written | input that shows it | evidently intended | confidence | as-written member | corrected member |
|---|---|---|---|---|---|---|
| migrate_sql/autodetector.py:103-105 | a dependent pulled in by a changed key is inserted at `pos`, the changed key's own position, whatever the dependent's other ancestors | app `shop`: `tax` is new; `price` is changed and not `replace`; `total_view` depends on both and is unchanged; `keys \| resolve_keys` is visited as `[tax, price]`. The result is `[tax, total_view, price]`, so `total_view` comes after its ancestor `tax`, and walking it backwards emits `AlterSQL(total_view)`, with its `tax` dependency `None`, before `CreateSQL(tax)` (`EndToEnd.ShopRuns`) | the docstring's order: leaves first, every key before all of its ancestors, giving `[total_view, tax, price]` | not executed | Scenarios.AssembleChangesAsWrittenMisorders | Assemble.AssembleChanges |
| migrate_sql/autodetector.py:103-105 | the same insertion also misorders the roll-back pass, which walks the list forwards | a new root `r`; a changed `a` whose only parent is `r`; a changed root `k`; `x` depending on `a` and `k`; none `replace`, each with a reverse SQL; visited as `[r, k, a]`. The result is `[a, r, x, k]`, so `ReverseAlterSQL(a)` is emitted before `ReverseAlterSQL(x)`, although `x` depends on `a` | `[x, a, r, k]`: `x` rolled back before `a` | not executed | Scenarios.AssembleChangesAsWrittenMisordersChain | Scenarios.AssembleChangesOrdersChain |
