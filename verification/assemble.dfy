/** `assemble_changes` (migrate_sql/autodetector.py): orders the keys of the
    items to create or change so that dependents come before what they depend
    on, and pulls in the dependents of changed items, which must be re-created
    with them. */
module Assemble {
  import opened Base
  import opened Config
  import opened StateGraph
  import opened Closure

  /** The loop's state: the result list and the growing `resolve_keys` set. */
  datatype Assembly = Assembly(keys: seq<Key>, resolve: set<Key>)

  /** Where a pulled-in dependent is inserted. */
  datatype Placement =
    | AtChangedKey     // at the position the changed key was inserted at, as written
    | BeforeAncestors  // before the first of its own ancestors already listed

  /** The elements of a list. */
  function Elems(s: seq<Key>): set<Key> {
    set x | x in s
  }

  /** The position of the first element of `s` that is in `xs`, or `|s|`: the
      `next(...)` of line 97. */
  function FirstIn(s: seq<Key>, xs: set<Key>): (i: nat)
    ensures i <= |s|
    ensures forall j | 0 <= j < i :: s[j] !in xs
    ensures i < |s| ==> s[i] in xs
  {
    if s == [] then 0 else if s[0] in xs then 0 else 1 + FirstIn(s[1..], xs)
  }

  /** Every listed key is a graph node. */
  ghost predicate NodesIn(g: Graph, s: seq<Key>) {
    forall x | x in s :: x in g.nodeMap
  }

  /** `descendants` lists, for every node, nodes only. */
  ghost predicate ListsNodes(g: Graph, descendants: map<Key, seq<Key>>) {
    forall k | k in g.nodeMap :: k in descendants && forall d | d in descendants[k] :: d in g.nodeMap
  }

  /** `descendants[k]` is Django's `descendants()` list of node `k` without
      `k` itself: its strict descendants, each once, in some order. */
  ghost predicate Listings(g: Graph, rank: map<Key, nat>, descendants: map<Key, seq<Key>>)
    requires Ranked(g, rank)
  {
    ListsNodes(g, descendants) &&
    forall k | k in g.nodeMap :: Enumerates(descendants[k], Descendants(g, rank, k))
  }

  /** Lines 103-107: each listed dependent not among the original keys and not
      yet listed is inserted and added to the resolve set. */
  function PullIn(g: Graph, ghost rank: map<Key, nat>, placement: Placement, acc: seq<Key>, pos: nat,
                  descs: seq<Key>, all: set<Key>, resolve: set<Key>): Assembly
    requires Ranked(g, rank) && pos <= |acc|
    requires forall d | d in descs :: d in g.nodeMap
    decreases |descs|
  {
    if descs == [] then Assembly(acc, resolve)
    else
      var d := descs[0];
      if d !in all && d !in acc then
        var at := if placement == AtChangedKey then pos else FirstIn(acc, Ancestors(g, rank, d));
        PullIn(g, rank, placement, Insert(acc, at, d), pos, descs[1..], all, resolve + {d})
      else
        PullIn(g, rank, placement, acc, pos, descs[1..], all, resolve)
  }

  /** One turn of the loop of lines 92-107: the key goes before the first of its
      ancestors already listed, and a key being resolved that is not `replace`
      pulls in its dependents. */
  function AssembleStep(g: Graph, ghost rank: map<Key, nat>, descendants: map<Key, seq<Key>>,
                        placement: Placement, all: set<Key>, a: Assembly, key: Key): Assembly
    requires ConsistentKeys(g) && Ranked(g, rank) && key in g.nodes && ListsNodes(g, descendants)
  {
    var pos := FirstIn(a.keys, Ancestors(g, rank, key));
    var keys := Insert(a.keys, pos, key);
    if key in a.resolve && !g.nodes[key].replace then
      ReverseElems(descendants[key]);
      PullIn(g, rank, placement, keys, pos, Reverse(descendants[key]), all, a.resolve)
    else
      Assembly(keys, a.resolve)
  }

  /** The loop over `all_keys` in iteration order `order`. */
  function AssembleFold(g: Graph, ghost rank: map<Key, nat>, descendants: map<Key, seq<Key>>,
                        placement: Placement, all: set<Key>, resolve: set<Key>, order: seq<Key>): Assembly
    requires ConsistentKeys(g) && Ranked(g, rank)
    requires forall k | k in order :: k in g.nodes
    requires ListsNodes(g, descendants)
    decreases |order|
  {
    if order == [] then Assembly([], resolve)
    else
      var a := AssembleFold(g, rank, descendants, placement, all, resolve, order[..|order| - 1]);
      AssembleStep(g, rank, descendants, placement, all, a, order[|order| - 1])
  }

  /** Inserting adds exactly the inserted key. */
  lemma InsertElems(s: seq<Key>, i: nat, x: Key)
    requires i <= |s|
    ensures Elems(Insert(s, i, x)) == Elems(s) + {x}
  {
    var r := Insert(s, i, x);
    assert r == s[..i] + [x] + s[i..];
    assert s == s[..i] + s[i..];
  }

  /** Inserting a key not yet listed keeps the list free of duplicates. */
  lemma InsertNoDups(s: seq<Key>, i: nat, x: Key)
    requires i <= |s| && NoDups(s) && x !in s
    ensures NoDups(Insert(s, i, x))
  {
    var r := Insert(s, i, x);
    forall a, b | 0 <= a < b < |r| ensures r[a] != r[b] {
      if a < i && b == i {
        assert r[a] == s[a];
      } else if a == i {
        assert r[b] == s[b - 1];
      } else if b < i {
        assert r[a] == s[a] && r[b] == s[b];
      } else if a < i {
        assert r[a] == s[a] && r[b] == s[b - 1];
      } else {
        assert r[a] == s[a - 1] && r[b] == s[b - 1];
      }
    }
  }

  /** The dependents that the keys of `done` pull in: strict descendants of a
      key being resolved that is not `replace`, other than the keys in `all`. */
  ghost function PulledBy(g: Graph, rank: map<Key, nat>, done: set<Key>, resolve: set<Key>, all: set<Key>): set<Key>
    requires Ranked(g, rank)
  {
    set k, d | k in done && k in resolve && k in g.nodes && !g.nodes[k].replace &&
               d in Descendants(g, rank, k) && d !in all :: d
  }

  /** Inserting a dependent not yet listed keeps the listing and the resolve
      set in step. */
  lemma PullInsert(acc: seq<Key>, at: nat, d: Key, all: set<Key>, resolve: set<Key>, resolve0: set<Key>)
    requires at <= |acc| && d !in acc && d !in all
    requires NoDups(acc) && resolve == resolve0 + (Elems(acc) - all)
    ensures NoDups(Insert(acc, at, d)) && Elems(Insert(acc, at, d)) == Elems(acc) + {d}
    ensures resolve + {d} == resolve0 + (Elems(Insert(acc, at, d)) - all)
  {
    InsertElems(acc, at, d);
    InsertNoDups(acc, at, d);
  }

  /** Set algebra for one dependent `d` handled ahead of the rest `t`. */
  lemma AbsorbHead(listed: set<Key>, t: set<Key>, d: Key, all: set<Key>, inserted: bool)
    requires inserted ==> d !in all
    requires !inserted ==> d in all || d in listed
    ensures (if inserted then listed + {d} else listed) + (t - all) == listed + (({d} + t) - all)
  {
  }

  /** Pulling in lists each given dependent outside `all` once and records the
      ones it inserts in the resolve set. */
  lemma {:induction false} PullInContents(g: Graph, rank: map<Key, nat>, placement: Placement, acc: seq<Key>,
                                          pos: nat, descs: seq<Key>, all: set<Key>, resolve: set<Key>,
                                          resolve0: set<Key>)
    requires Ranked(g, rank) && pos <= |acc|
    requires forall d | d in descs :: d in g.nodeMap
    requires NoDups(acc) && resolve == resolve0 + (Elems(acc) - all)
    ensures var r := PullIn(g, rank, placement, acc, pos, descs, all, resolve);
      NoDups(r.keys) && Elems(r.keys) == Elems(acc) + (Elems(descs) - all) &&
      r.resolve == resolve0 + (Elems(r.keys) - all)
    decreases |descs|
  {
    if descs != [] {
      var d := descs[0];
      assert Elems(descs) == {d} + Elems(descs[1..]);
      var inserted := d !in all && d !in acc;
      AbsorbHead(Elems(acc), Elems(descs[1..]), d, all, inserted);
      if inserted {
        var at := if placement == AtChangedKey then pos else FirstIn(acc, Ancestors(g, rank, d));
        PullInsert(acc, at, d, all, resolve, resolve0);
        PullInContents(g, rank, placement, Insert(acc, at, d), pos, descs[1..], all, resolve + {d}, resolve0);
      } else {
        PullInContents(g, rank, placement, acc, pos, descs[1..], all, resolve, resolve0);
      }
    }
  }

  /** The keys a longer prefix of the iteration pulls in. */
  lemma PulledBySnoc(g: Graph, rank: map<Key, nat>, done: set<Key>, key: Key, resolve: set<Key>, all: set<Key>)
    requires Ranked(g, rank)
    ensures PulledBy(g, rank, done + {key}, resolve, all) ==
      PulledBy(g, rank, done, resolve, all) +
      (if key in resolve && key in g.nodes && !g.nodes[key].replace then Descendants(g, rank, key) - all else {})
  {
  }

  /** The last key of a duplicate-free list is not among the ones before it. */
  lemma SnocFacts(order: seq<Key>)
    requires order != [] && NoDups(order)
    ensures var init, key := order[..|order| - 1], order[|order| - 1];
      NoDups(init) && key !in Elems(init) && Elems(order) == Elems(init) + {key}
  {
    var init, key := order[..|order| - 1], order[|order| - 1];
    assert order == init + [key];
    forall i | 0 <= i < |init| ensures init[i] != key && init[i] == order[i] {
      assert init[i] == order[i];
    }
  }

  /** Set algebra for one turn of the loop. */
  lemma StepAlgebra(done: set<Key>, pulled: set<Key>, more: set<Key>, key: Key, all: set<Key>, resolve: set<Key>, keys: set<Key>)
    requires key in all && keys == done + pulled + {key}
    ensures keys + more == done + {key} + (pulled + more)
    ensures resolve + ((keys - {key}) - all) == resolve + (keys - all)
  {
  }

  /** One turn of the loop keeps the listing and the resolve set in step. */
  lemma AssembleStepContents(g: Graph, rank: map<Key, nat>, descendants: map<Key, seq<Key>>,
                             placement: Placement, all: set<Key>, resolve: set<Key>, a: Assembly,
                             key: Key, done: set<Key>)
    requires ConsistentKeys(g) && Ranked(g, rank) && Listings(g, rank, descendants) && key in g.nodes
    requires key in all && key !in done && done <= all && resolve <= all
    requires NoDups(a.keys) && Elems(a.keys) == done + PulledBy(g, rank, done, resolve, all)
    requires a.resolve == resolve + (Elems(a.keys) - all)
    ensures var r := AssembleStep(g, rank, descendants, placement, all, a, key);
      NoDups(r.keys) &&
      Elems(r.keys) == done + {key} + PulledBy(g, rank, done + {key}, resolve, all) &&
      r.resolve == resolve + (Elems(r.keys) - all)
  {
    var pos := FirstIn(a.keys, Ancestors(g, rank, key));
    var keys := Insert(a.keys, pos, key);
    InsertElems(a.keys, pos, key);
    InsertNoDups(a.keys, pos, key);
    var pulled := PulledBy(g, rank, done, resolve, all);
    var pulls := key in resolve && !g.nodes[key].replace;
    var more := if pulls then Descendants(g, rank, key) - all else {};
    PulledBySnoc(g, rank, done, key, resolve, all);
    assert PulledBy(g, rank, done + {key}, resolve, all) == pulled + more;
    StepAlgebra(done, pulled, more, key, all, resolve, Elems(keys));
    assert Elems(keys) - {key} == Elems(a.keys);
    assert key in a.resolve <==> pulls || (key in resolve && g.nodes[key].replace);
    if pulls {
      var descs := Reverse(descendants[key]);
      ReverseElems(descendants[key]);
      assert Elems(descs) == Descendants(g, rank, key);
      PullInContents(g, rank, placement, keys, pos, descs, all, a.resolve, resolve);
    }
  }

  /** The loop lists every key once, together with the dependents it pulls in,
      and the resolve set gains exactly those dependents. */
  lemma {:induction false} AssembleFoldContents(g: Graph, rank: map<Key, nat>, descendants: map<Key, seq<Key>>,
                                                placement: Placement, all: set<Key>, resolve: set<Key>,
                                                order: seq<Key>)
    requires ConsistentKeys(g) && Ranked(g, rank) && Listings(g, rank, descendants)
    requires forall k | k in order :: k in g.nodes
    requires NoDups(order) && Elems(order) <= all && resolve <= all
    ensures var a := AssembleFold(g, rank, descendants, placement, all, resolve, order);
      NoDups(a.keys) &&
      Elems(a.keys) == Elems(order) + PulledBy(g, rank, Elems(order), resolve, all) &&
      a.resolve == resolve + (Elems(a.keys) - all)
    decreases |order|
  {
    if order != [] {
      var init, key := order[..|order| - 1], order[|order| - 1];
      SnocFacts(order);
      AssembleFoldContents(g, rank, descendants, placement, all, resolve, init);
      var a := AssembleFold(g, rank, descendants, placement, all, resolve, init);
      AssembleStepContents(g, rank, descendants, placement, all, resolve, a, key, Elems(init));
    }
  }

  /** Every listed key of `all` comes before all of its listed ancestors. */
  ghost predicate KeysFirst(g: Graph, rank: map<Key, nat>, s: seq<Key>, all: set<Key>)
    requires Ranked(g, rank)
  {
    forall i, j | 0 <= i < j < |s| && s[j] in all && s[j] in g.nodeMap :: s[i] !in Ancestors(g, rank, s[j])
  }

  /** The docstring's promise: the list starts with leaves and ends with roots,
      every key before all of its ancestors. */
  ghost predicate LeavesFirst(g: Graph, rank: map<Key, nat>, s: seq<Key>)
    requires Ranked(g, rank)
  {
    KeysFirst(g, rank, s, g.nodeMap.Keys)
  }

  /** Inserting `x` at `p` keeps the order when nothing before `p` is an
      ancestor of `x` (if it matters) and `x` is no ancestor of a key after it. */
  lemma InsertKeysFirst(g: Graph, rank: map<Key, nat>, s: seq<Key>, all: set<Key>, p: nat, x: Key)
    requires Ranked(g, rank) && p <= |s| && KeysFirst(g, rank, s, all) && x in g.nodeMap
    requires x in all ==> forall i | 0 <= i < p :: s[i] !in Ancestors(g, rank, x)
    requires forall j | p <= j < |s| && s[j] in all && s[j] in g.nodeMap :: x !in Ancestors(g, rank, s[j])
    ensures KeysFirst(g, rank, Insert(s, p, x), all)
  {
    var r := Insert(s, p, x);
    forall i, j | 0 <= i < j < |r| && r[j] in all && r[j] in g.nodeMap ensures r[i] !in Ancestors(g, rank, r[j]) {
      if j == p {
        assert r[i] == s[i];
      } else if i == p {
        assert r[j] == s[j - 1];
      } else if j < p {
        assert r[i] == s[i] && r[j] == s[j];
      } else if i < p {
        assert r[i] == s[i] && r[j] == s[j - 1];
      } else {
        assert r[i] == s[i - 1] && r[j] == s[j - 1];
      }
    }
  }

  /** Nothing from the first listed ancestor of `x` on has `x` as an ancestor. */
  lemma AncestorBarrier(g: Graph, rank: map<Key, nat>, s: seq<Key>, all: set<Key>, x: Key)
    requires Ranked(g, rank) && KeysFirst(g, rank, s, all) && NodesIn(g, s) && x in g.nodeMap
    ensures var p := FirstIn(s, Ancestors(g, rank, x));
      forall j | p <= j < |s| && s[j] in all :: x !in Ancestors(g, rank, s[j])
  {
    var p := FirstIn(s, Ancestors(g, rank, x));
    forall j | p <= j < |s| && s[j] in all ensures x !in Ancestors(g, rank, s[j]) {
      if x in Ancestors(g, rank, s[j]) {
        AncestorsTransitive(g, rank, s[p], x, s[j]);
        if p == j {
          AncestorsIrreflexive(g, rank, s[j]);
        }
        assert false;
      }
    }
  }

  /** Inserting a node keeps every listed key a node. */
  lemma InsertNodesIn(g: Graph, s: seq<Key>, p: nat, x: Key)
    requires p <= |s| && NodesIn(g, s) && x in g.nodeMap
    ensures NodesIn(g, Insert(s, p, x))
  {
    InsertElems(s, p, x);
    assert forall y | y in Insert(s, p, x) :: y in Elems(Insert(s, p, x));
  }

  /** After inserting `x` at `p`, nothing from `x` on has `x` as an ancestor. */
  lemma BarrierAfterInsert(g: Graph, rank: map<Key, nat>, s: seq<Key>, all: set<Key>, p: nat, x: Key)
    requires Ranked(g, rank) && p <= |s| && NodesIn(g, s) && x in g.nodeMap
    requires forall j | p <= j < |s| && s[j] in all :: x !in Ancestors(g, rank, s[j])
    ensures var r := Insert(s, p, x);
      forall j | p <= j < |r| && r[j] in all :: x !in Ancestors(g, rank, r[j])
  {
    var r := Insert(s, p, x);
    AncestorsIrreflexive(g, rank, x);
    forall j | p < j < |r| && r[j] in all ensures x !in Ancestors(g, rank, r[j]) {
      assert r[j] == s[j - 1];
    }
  }

  /** Inserting `x` before the first of its listed ancestors keeps the order,
      and leaves nothing from `x` on with `x` as an ancestor. */
  lemma PlaceBeforeAncestors(g: Graph, rank: map<Key, nat>, s: seq<Key>, all: set<Key>, x: Key)
    requires Ranked(g, rank) && KeysFirst(g, rank, s, all) && NodesIn(g, s) && x in g.nodeMap
    ensures var p := FirstIn(s, Ancestors(g, rank, x));
      var r := Insert(s, p, x);
      KeysFirst(g, rank, r, all) && NodesIn(g, r) &&
      forall j | p <= j < |r| && r[j] in all :: x !in Ancestors(g, rank, r[j])
  {
    var p := FirstIn(s, Ancestors(g, rank, x));
    AncestorBarrier(g, rank, s, all, x);
    InsertKeysFirst(g, rank, s, all, p, x);
    BarrierAfterInsert(g, rank, s, all, p, x);
    InsertNodesIn(g, s, p, x);
  }

  /** As written, dependents go where the changed key went. That keeps every
      key of `all` before its ancestors as long as nothing from there on has
      the changed key as an ancestor. */
  lemma {:induction false} PullInKeysFirst(g: Graph, rank: map<Key, nat>, acc: seq<Key>, pos: nat,
                                           descs: seq<Key>, all: set<Key>, resolve: set<Key>, key: Key)
    requires Ranked(g, rank) && pos <= |acc| && NodesIn(g, acc) && KeysFirst(g, rank, acc, all)
    requires forall d | d in descs :: d in g.nodeMap && key in Ancestors(g, rank, d)
    requires forall j | pos <= j < |acc| && acc[j] in all :: key !in Ancestors(g, rank, acc[j])
    ensures var r := PullIn(g, rank, AtChangedKey, acc, pos, descs, all, resolve);
      KeysFirst(g, rank, r.keys, all) && NodesIn(g, r.keys)
    decreases |descs|
  {
    if descs != [] {
      var d := descs[0];
      if d !in all && d !in acc {
        var r := Insert(acc, pos, d);
        forall j | pos <= j < |acc| && acc[j] in all && acc[j] in g.nodeMap ensures d !in Ancestors(g, rank, acc[j]) {
          if d in Ancestors(g, rank, acc[j]) {
            AncestorsTransitive(g, rank, key, d, acc[j]);
          }
        }
        InsertKeysFirst(g, rank, acc, all, pos, d);
        forall j | pos <= j < |r| && r[j] in all ensures key !in Ancestors(g, rank, r[j]) {
          assert r[j] == acc[j - 1];
        }
        InsertNodesIn(g, acc, pos, d);
        PullInKeysFirst(g, rank, r, pos, descs[1..], all, resolve + {d}, key);
      } else {
        PullInKeysFirst(g, rank, acc, pos, descs[1..], all, resolve, key);
      }
    }
  }

  /** Corrected, every dependent goes before its own first listed ancestor,
      which keeps every listed key before its ancestors. */
  lemma {:induction false} PullInLeavesFirst(g: Graph, rank: map<Key, nat>, acc: seq<Key>, pos: nat,
                                             descs: seq<Key>, all: set<Key>, resolve: set<Key>)
    requires Ranked(g, rank) && pos <= |acc| && NodesIn(g, acc) && LeavesFirst(g, rank, acc)
    requires forall d | d in descs :: d in g.nodeMap
    ensures var r := PullIn(g, rank, BeforeAncestors, acc, pos, descs, all, resolve);
      LeavesFirst(g, rank, r.keys) && NodesIn(g, r.keys)
    decreases |descs|
  {
    if descs != [] {
      var d := descs[0];
      if d !in all && d !in acc {
        PlaceBeforeAncestors(g, rank, acc, g.nodeMap.Keys, d);
        var r := Insert(acc, FirstIn(acc, Ancestors(g, rank, d)), d);
        PullInLeavesFirst(g, rank, r, pos, descs[1..], all, resolve + {d});
      } else {
        PullInLeavesFirst(g, rank, acc, pos, descs[1..], all, resolve);
      }
    }
  }

  /** As written, the loop lists every key of `all` before its listed ancestors. */
  lemma {:induction false} AssembleFoldKeysFirst(g: Graph, rank: map<Key, nat>, descendants: map<Key, seq<Key>>,
                                                 all: set<Key>, resolve: set<Key>, order: seq<Key>)
    requires ConsistentKeys(g) && Ranked(g, rank) && Listings(g, rank, descendants)
    requires forall k | k in order :: k in g.nodes
    ensures var a := AssembleFold(g, rank, descendants, AtChangedKey, all, resolve, order);
      KeysFirst(g, rank, a.keys, all) && NodesIn(g, a.keys)
    decreases |order|
  {
    if order != [] {
      var init, key := order[..|order| - 1], order[|order| - 1];
      AssembleFoldKeysFirst(g, rank, descendants, all, resolve, init);
      var a := AssembleFold(g, rank, descendants, AtChangedKey, all, resolve, init);
      var pos := FirstIn(a.keys, Ancestors(g, rank, key));
      PlaceBeforeAncestors(g, rank, a.keys, all, key);
      if key in a.resolve && !g.nodes[key].replace {
        var descs := Reverse(descendants[key]);
        ReverseElems(descendants[key]);
        assert forall d | d in descs :: d in Descendants(g, rank, key);
        PullInKeysFirst(g, rank, Insert(a.keys, pos, key), pos, descs, all, a.resolve, key);
      }
    }
  }

  /** Corrected, the loop lists every key before its listed ancestors. */
  lemma {:induction false} AssembleFoldLeavesFirst(g: Graph, rank: map<Key, nat>, descendants: map<Key, seq<Key>>,
                                                   all: set<Key>, resolve: set<Key>, order: seq<Key>)
    requires ConsistentKeys(g) && Ranked(g, rank) && ListsNodes(g, descendants)
    requires forall k | k in order :: k in g.nodes
    ensures var a := AssembleFold(g, rank, descendants, BeforeAncestors, all, resolve, order);
      LeavesFirst(g, rank, a.keys) && NodesIn(g, a.keys)
    decreases |order|
  {
    if order != [] {
      var init, key := order[..|order| - 1], order[|order| - 1];
      AssembleFoldLeavesFirst(g, rank, descendants, all, resolve, init);
      var a := AssembleFold(g, rank, descendants, BeforeAncestors, all, resolve, init);
      var pos := FirstIn(a.keys, Ancestors(g, rank, key));
      PlaceBeforeAncestors(g, rank, a.keys, g.nodeMap.Keys, key);
      if key in a.resolve && !g.nodes[key].replace {
        ReverseElems(descendants[key]);
        PullInLeavesFirst(g, rank, Insert(a.keys, pos, key), pos, Reverse(descendants[key]), all, a.resolve);
      }
    }
  }

  /** `assemble_changes` as written: `keys` and `resolveKeys` listed once each
      with the dependents the non-`replace` keys being resolved pull in, each of
      `keys + resolveKeys` before its listed ancestors, and the resolve set
      grown by exactly the dependents pulled in. */
  function AssembleChangesAsWritten(g: Graph, ghost rank: map<Key, nat>, descendants: map<Key, seq<Key>>,
                                    keys: set<Key>, resolveKeys: set<Key>, order: seq<Key>): (r: Assembly)
    requires WellFormed(g, rank) && Listings(g, rank, descendants)
    requires keys + resolveKeys <= g.nodes.Keys && Enumerates(order, keys + resolveKeys)
    ensures NoDups(r.keys)
    ensures Elems(r.keys) == keys + resolveKeys + PulledBy(g, rank, resolveKeys, resolveKeys, keys + resolveKeys)
    ensures r.resolve == resolveKeys + (Elems(r.keys) - (keys + resolveKeys))
    ensures KeysFirst(g, rank, r.keys, keys + resolveKeys)
  {
    var all := keys + resolveKeys;
    var r := AssembleFold(g, rank, descendants, AtChangedKey, all, resolveKeys, order);
    AssembleFoldContents(g, rank, descendants, AtChangedKey, all, resolveKeys, order);
    AssembleFoldKeysFirst(g, rank, descendants, all, resolveKeys, order);
    PulledByResolve(g, rank, Elems(order), resolveKeys, all);
    r
  }

  /** `assemble_changes` with each pulled-in dependent placed before its own
      first listed ancestor: the same keys and resolve set, with every key
      before all of its listed ancestors. */
  function AssembleChanges(g: Graph, ghost rank: map<Key, nat>, descendants: map<Key, seq<Key>>,
                           keys: set<Key>, resolveKeys: set<Key>, order: seq<Key>): (r: Assembly)
    requires WellFormed(g, rank) && Listings(g, rank, descendants)
    requires keys + resolveKeys <= g.nodes.Keys && Enumerates(order, keys + resolveKeys)
    ensures NoDups(r.keys)
    ensures Elems(r.keys) == keys + resolveKeys + PulledBy(g, rank, resolveKeys, resolveKeys, keys + resolveKeys)
    ensures r.resolve == resolveKeys + (Elems(r.keys) - (keys + resolveKeys))
    ensures LeavesFirst(g, rank, r.keys)
  {
    var all := keys + resolveKeys;
    var r := AssembleFold(g, rank, descendants, BeforeAncestors, all, resolveKeys, order);
    AssembleFoldContents(g, rank, descendants, BeforeAncestors, all, resolveKeys, order);
    AssembleFoldLeavesFirst(g, rank, descendants, all, resolveKeys, order);
    PulledByResolve(g, rank, Elems(order), resolveKeys, all);
    r
  }

  /** With nothing to resolve, nothing is pulled in, so the placement never
      comes into play. */
  lemma {:induction false} FoldWithoutResolve(g: Graph, rank: map<Key, nat>, descendants: map<Key, seq<Key>>,
                                              all: set<Key>, order: seq<Key>)
    requires ConsistentKeys(g) && Ranked(g, rank) && ListsNodes(g, descendants)
    requires forall k | k in order :: k in g.nodes
    ensures AssembleFold(g, rank, descendants, AtChangedKey, all, {}, order) ==
            AssembleFold(g, rank, descendants, BeforeAncestors, all, {}, order)
    ensures AssembleFold(g, rank, descendants, AtChangedKey, all, {}, order).resolve == {}
    decreases |order|
  {
    if order != [] {
      FoldWithoutResolve(g, rank, descendants, all, order[..|order| - 1]);
    }
  }

  /** Line 230: the delete keys are assembled with nothing to resolve, and
      then the code as written and the corrected placement list them alike. */
  lemma NothingToResolve(g: Graph, rank: map<Key, nat>, descendants: map<Key, seq<Key>>,
                         keys: set<Key>, order: seq<Key>)
    requires WellFormed(g, rank) && Listings(g, rank, descendants)
    requires keys <= g.nodes.Keys && Enumerates(order, keys)
    ensures AssembleChangesAsWritten(g, rank, descendants, keys, {}, order) ==
            AssembleChanges(g, rank, descendants, keys, {}, order)
  {
    assert keys + {} == keys;
    FoldWithoutResolve(g, rank, descendants, keys, order);
  }

  /** `assemble_changes` with either placement: `AtChangedKey` is the code as
      written, `BeforeAncestors` the corrected one. Both list the same keys,
      keep every original key before its listed ancestors, and grow the resolve
      set alike; the corrected one, and either one with nothing to resolve,
      lists every key before its ancestors. */
  function AssembleChangesWith(g: Graph, ghost rank: map<Key, nat>, descendants: map<Key, seq<Key>>,
                               placement: Placement, keys: set<Key>, resolveKeys: set<Key>, order: seq<Key>): (r: Assembly)
    requires WellFormed(g, rank) && Listings(g, rank, descendants)
    requires keys + resolveKeys <= g.nodes.Keys && Enumerates(order, keys + resolveKeys)
    ensures NoDups(r.keys)
    ensures Elems(r.keys) == keys + resolveKeys + PulledBy(g, rank, resolveKeys, resolveKeys, keys + resolveKeys)
    ensures r.resolve == resolveKeys + (Elems(r.keys) - (keys + resolveKeys))
    ensures KeysFirst(g, rank, r.keys, keys + resolveKeys)
    ensures placement == BeforeAncestors || resolveKeys == {} ==> LeavesFirst(g, rank, r.keys)
  {
    if placement == BeforeAncestors then AssembleChanges(g, rank, descendants, keys, resolveKeys, order)
    else if resolveKeys == {} then
      NothingToResolve(g, rank, descendants, keys, order);
      AssembleChangesAsWritten(g, rank, descendants, keys, resolveKeys, order)
    else AssembleChangesAsWritten(g, rank, descendants, keys, resolveKeys, order)
  }

  /** Only the keys being resolved pull anything in. */
  lemma PulledByResolve(g: Graph, rank: map<Key, nat>, done: set<Key>, resolve: set<Key>, all: set<Key>)
    requires Ranked(g, rank) && done == all && resolve <= all
    ensures PulledBy(g, rank, done, resolve, all) == PulledBy(g, rank, resolve, resolve, all)
  {
  }
}
