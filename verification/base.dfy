/** Shared vocabulary: optional values, results with an error channel, item keys
    and a few facts about sequences used throughout the model. */
module Base {

  /** Python's `None` or a value. */
  datatype Option<+T> = None | Some(value: T)

  /** A computation that either produces a value or raises an error. */
  datatype Result<+T, +E> = Ok(value: T) | Err(error: E) {
    predicate IsFailure() {
      Err?
    }

    function PropagateFailure<U>(): Result<U, E>
      requires Err?
    {
      Err(error)
    }

    function Extract(): T
      requires Ok?
    {
      value
    }
  }

  /** The identity of an SQL item: the app that declares it and the item's name
      within that app, the `(app_label, sql_name)` tuple of the source. */
  datatype Key = Key(app: string, name: string)

  /** No element occurs twice. */
  predicate NoDups<T(==)>(s: seq<T>) {
    forall i, j | 0 <= i < j < |s| :: s[i] != s[j]
  }

  /** `s` lists the elements of `xs`, each exactly once: one possible iteration
      order of a Python set. */
  predicate Enumerates<T(==)>(s: seq<T>, xs: set<T>) {
    NoDups(s) && (forall x | x in s :: x in xs) && (forall x | x in xs :: x in s)
  }

  /** Python's `lst.insert(i, x)` for an index within bounds. */
  function Insert<T>(s: seq<T>, i: nat, x: T): (r: seq<T>)
    requires i <= |s|
    ensures |r| == |s| + 1
    ensures r[i] == x
    ensures forall j | 0 <= j < i :: r[j] == s[j]
    ensures forall j | i <= j < |s| :: r[j + 1] == s[j]
  {
    assert s == s[..i] + s[i..];
    s[..i] + [x] + s[i..]
  }

  /** Python's `reversed(lst)`. */
  function Reverse<T>(s: seq<T>): (r: seq<T>)
    ensures |r| == |s|
    ensures forall i | 0 <= i < |s| :: r[i] == s[|s| - 1 - i]
  {
    if s == [] then [] else Reverse(s[1..]) + [s[0]]
  }

  /** Reversing keeps a list free of duplicates. */
  lemma ReverseNoDups<T>(s: seq<T>)
    requires NoDups(s)
    ensures NoDups(Reverse(s))
  {
    var r := Reverse(s);
    forall i, j | 0 <= i < j < |r| ensures r[i] != r[j] {
      assert r[i] == s[|s| - 1 - i] && r[j] == s[|s| - 1 - j];
    }
  }

  lemma ReverseElems<T>(s: seq<T>)
    ensures forall x :: x in Reverse(s) <==> x in s
  {
    var r := Reverse(s);
    forall x | x in s ensures x in r {
      var i :| 0 <= i < |s| && s[i] == x;
      assert r[|s| - 1 - i] == x;
    }
  }
}
