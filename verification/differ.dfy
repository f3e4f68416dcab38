/** The first half of `generate_sql_changes` (migrate_sql/autodetector.py): which
    items are new, which are gone, whose forward SQL changed, and whose
    dependencies changed between the from-state and the to-state. */
module Differ {
  import opened Base
  import opened SqlPayload
  import opened Config
  import opened StateGraph

  /** `(key, removed_deps, added_deps)` for an item whose dependencies changed. */
  datatype DepChange = DepChange(key: Key, removed: set<Key>, added: set<Key>)

  /** What the loop over the common keys collects. */
  datatype Comparison = Comparison(changed: set<Key>, depChanges: seq<DepChange>)

  /** The differences between two states. */
  datatype Diff = Diff(newKeys: set<Key>, deleteKeys: set<Key>, changed: set<Key>, depChanges: seq<DepChange>)

  /** How payloads are compared: `IsSqlEqual` in the detector itself, kept a
      parameter here so that the bookkeeping below is stated for any
      comparison. */
  type Equality = (Val, Val) -> Result<bool, SqlError>

  /** Comparing the forward SQL of an item present in both states. */
  function SqlComparison(from: Graph, to: Graph, equal: Equality, k: Key): Result<bool, SqlError>
    requires k in from.nodes && k in to.nodes
  {
    equal(from.nodes[k].sql, to.nodes[k].sql)
  }

  /** The registered dependencies of `k` differ between the states. */
  predicate DepsDiffer(from: Graph, to: Graph, k: Key) {
    LazyDeps(from, k) != LazyDeps(to, k)
  }

  /** The dependency delta the source records for `k`. */
  function Delta(from: Graph, to: Graph, k: Key): DepChange {
    DepChange(k, LazyDeps(from, k) - LazyDeps(to, k), LazyDeps(to, k) - LazyDeps(from, k))
  }

  /** The loop over the common keys in iteration order: a key whose forward SQL
      compares unequal is changed, a key whose dependency sets differ gets a
      delta, and the first comparison that raises aborts the whole detection. */
  function CompareCommon(from: Graph, to: Graph, equal: Equality, common: seq<Key>): (r: Result<Comparison, SqlError>)
    requires forall k | k in common :: k in from.nodes && k in to.nodes
    ensures r.Ok? <==> forall i | 0 <= i < |common| :: SqlComparison(from, to, equal, common[i]).Ok?
    ensures r.Ok? ==> forall k :: k in r.value.changed <==> k in common && SqlComparison(from, to, equal, k) == Ok(false)
    ensures r.Ok? ==> forall d | d in r.value.depChanges :: d.key in common && d == Delta(from, to, d.key)
    ensures r.Ok? ==> forall k | k in common :: DepsDiffer(from, to, k) <==> exists d | d in r.value.depChanges :: d.key == k
    decreases |common|
  {
    if common == [] then Ok(Comparison({}, []))
    else
      var k := common[0];
      var same :- SqlComparison(from, to, equal, k);
      var rest :- CompareCommon(from, to, equal, common[1..]);
      var delta := if DepsDiffer(from, to, k) then [Delta(from, to, k)] else [];
      Ok(Comparison((if same then {} else {k}) + rest.changed, delta + rest.depChanges))
  }

  /** The error reported is that of the first comparison, in iteration order,
      that raises. */
  lemma {:induction false} CompareCommonFirstError(from: Graph, to: Graph, equal: Equality, common: seq<Key>)
    requires forall k | k in common :: k in from.nodes && k in to.nodes
    ensures CompareCommon(from, to, equal, common).Err? ==> exists i | 0 <= i < |common| ::
      SqlComparison(from, to, equal, common[i]) == Err(CompareCommon(from, to, equal, common).error) &&
      forall j | 0 <= j < i :: SqlComparison(from, to, equal, common[j]).Ok?
    decreases |common|
  {
    var r := CompareCommon(from, to, equal, common);
    if common != [] && r.Err? && SqlComparison(from, to, equal, common[0]).Ok? {
      var tail := common[1..];
      CompareCommonFirstError(from, to, equal, tail);
      var i :| 0 <= i < |tail| && SqlComparison(from, to, equal, tail[i]) == Err(r.error) &&
        forall j | 0 <= j < i :: SqlComparison(from, to, equal, tail[j]).Ok?;
      assert common[i + 1] == tail[i];
      forall j | 0 <= j < i + 1 ensures SqlComparison(from, to, equal, common[j]).Ok? {
        if j > 0 {
          assert common[j] == tail[j - 1];
        }
      }
    }
  }

  /** `x` occurs in `s` before `y` does. */
  ghost predicate Before(s: seq<Key>, x: Key, y: Key) {
    exists a, b | 0 <= a < b < |s| :: s[a] == x && s[b] == y
  }

  /** The keys of `ks` occur in `s` in the same relative order. */
  ghost predicate InOrder(ks: seq<Key>, s: seq<Key>) {
    forall i, j | 0 <= i < j < |ks| :: Before(s, ks[i], ks[j])
  }

  lemma BeforeTail(s: seq<Key>, x: Key, y: Key)
    requires |s| > 0 && Before(s[1..], x, y)
    ensures Before(s, x, y)
  {
    var a, b :| 0 <= a < b < |s| - 1 && s[1..][a] == x && s[1..][b] == y;
    assert s[a + 1] == x && s[b + 1] == y;
  }

  lemma BeforeHead(s: seq<Key>, y: Key)
    requires |s| > 0 && y in s[1..]
    ensures Before(s, s[0], y)
  {
    var b :| 0 <= b < |s| - 1 && s[1..][b] == y;
    assert s[b + 1] == y;
  }

  /** Keys in order within the tail of a sequence are in order within it. */
  lemma InOrderTail(ks: seq<Key>, s: seq<Key>)
    requires |s| > 0 && InOrder(ks, s[1..])
    ensures InOrder(ks, s)
  {
    forall i, j | 0 <= i < j < |ks| ensures Before(s, ks[i], ks[j]) {
      BeforeTail(s, ks[i], ks[j]);
    }
  }

  /** ... and stay in order behind its head. */
  lemma InOrderHead(ks: seq<Key>, s: seq<Key>)
    requires |s| > 0 && InOrder(ks, s[1..]) && forall k | k in ks :: k in s[1..]
    ensures InOrder([s[0]] + ks, s)
  {
    var ks' := [s[0]] + ks;
    forall i, j | 0 <= i < j < |ks'| ensures Before(s, ks'[i], ks'[j]) {
      assert ks'[j] == ks[j - 1];
      if i == 0 {
        BeforeHead(s, ks[j - 1]);
      } else {
        assert ks'[i] == ks[i - 1];
        BeforeTail(s, ks[i - 1], ks[j - 1]);
      }
    }
  }

  function KeysOf(ds: seq<DepChange>): (ks: seq<Key>)
    ensures |ks| == |ds| && forall i | 0 <= i < |ds| :: ks[i] == ds[i].key
  {
    seq(|ds|, i requires 0 <= i < |ds| => ds[i].key)
  }

  /** The deltas of a successful comparison: the head's, if any, then the tail's. */
  lemma CompareCommonDeltas(from: Graph, to: Graph, equal: Equality, common: seq<Key>)
    requires forall k | k in common :: k in from.nodes && k in to.nodes
    requires common != [] && CompareCommon(from, to, equal, common).Ok?
    ensures var rest := CompareCommon(from, to, equal, common[1..]).value.depChanges;
      KeysOf(CompareCommon(from, to, equal, common).value.depChanges)
        == (if DepsDiffer(from, to, common[0]) then [common[0]] else []) + KeysOf(rest)
  {
  }

  /** The deltas come in the order the common keys are visited. */
  lemma {:induction false} DepChangesInOrder(from: Graph, to: Graph, equal: Equality, common: seq<Key>)
    requires forall k | k in common :: k in from.nodes && k in to.nodes
    requires CompareCommon(from, to, equal, common).Ok?
    ensures InOrder(KeysOf(CompareCommon(from, to, equal, common).value.depChanges), common)
    decreases |common|
  {
    if common != [] {
      var tail := common[1..];
      DepChangesInOrder(from, to, equal, tail);
      var rest := KeysOf(CompareCommon(from, to, equal, tail).value.depChanges);
      CompareCommonDeltas(from, to, equal, common);
      if DepsDiffer(from, to, common[0]) {
        forall k | k in rest ensures k in tail {
          var i :| 0 <= i < |rest| && rest[i] == k;
          assert CompareCommon(from, to, equal, tail).value.depChanges[i].key == k;
        }
        InOrderHead(rest, common);
      } else {
        InOrderTail(rest, common);
      }
    }
  }
}
