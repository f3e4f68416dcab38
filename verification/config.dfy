/** The declared SQL item (`SQLItem` in migrate_sql/config.py). */
module Config {
  import opened Base
  import opened SqlPayload

  /** An SQL entity (function, type, index, trigger) as an app declares it.
      `dependencies` lists `(app, item_name)` keys in any order; `replace` says
      that new forward SQL replaces the old object without dropping it first. */
  datatype SqlItem = SqlItem(
    name: string,
    sql: Val,
    reverseSql: Val,
    dependencies: seq<Key>,
    replace: bool)

  /** The constructor with its defaults: no reverse SQL (`None`), no
      dependencies (`dependencies or []`), and `replace = False`. */
  function NewSqlItem(
    name: string,
    sql: Val,
    reverseSql: Val := Null,
    dependencies: Option<seq<Key>> := None,
    replace: bool := false): (item: SqlItem)
    ensures item.name == name && item.sql == sql
    ensures item.reverseSql == reverseSql && item.replace == replace
    ensures dependencies.None? ==> item.dependencies == []
    ensures dependencies.Some? ==> item.dependencies == dependencies.value
  {
    SqlItem(name, sql, reverseSql, if dependencies.Some? then dependencies.value else [], replace)
  }

  /** An item declared with only a name and SQL has no reverse SQL, no
      dependencies and is dropped before it is re-created. */
  lemma NewSqlItemDefaults(name: string, sql: Val)
    ensures NewSqlItem(name, sql) == SqlItem(name, sql, Null, [], false)
  {
  }
}
