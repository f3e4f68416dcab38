/** SQL payloads as Django's `RunSQL` accepts them, and the comparison the change
    detector uses to decide whether an item's forward SQL changed
    (`_sql_params` and `is_sql_equal` in migrate_sql/autodetector.py). */
module SqlPayload {
  import opened Base

  /** The Python values a payload is built from. Lists and tuples are kept apart
      because Python compares `[1]` and `(1,)` as different parameter lists. */
  datatype Val =
    | Str(s: string)
    | Int(i: int)
    | Null
    | List(elems: seq<Val>)
    | Tuple(elems: seq<Val>)

  /** `isinstance(v, (list, tuple))` */
  predicate IsSequence(v: Val) {
    v.List? || v.Tuple?
  }

  /** Python truthiness: `None`, `''`, `0` and empty sequences are false. */
  predicate Truthy(v: Val) {
    match v
    case Str(s) => s != ""
    case Int(i) => i != 0
    case Null => false
    case List(es) => es != []
    case Tuple(es) => es != []
  }

  /** One statement as `_sql_params` splits it: the SQL and its parameters,
      `Null` when none were given. */
  datatype Stmt = Stmt(sql: Val, params: Val)

  /** The `ValueError("Expected a 2-tuple but got %d")` of `_sql_params`. */
  datatype SqlError = NotAPair(arity: nat)

  /** `_sql_params`: a non-sequence is a statement without parameters, a
      two-element sequence is `(sql, params)`, any other arity is an error. */
  function SqlParams(v: Val): (r: Result<Stmt, SqlError>)
    ensures r.Ok? <==> !IsSequence(v) || |v.elems| == 2
    ensures !IsSequence(v) ==> r == Ok(Stmt(v, Null))
    ensures r.Ok? && IsSequence(v) ==> [r.value.sql, r.value.params] == v.elems
    ensures r.Err? ==> r.error == NotAPair(|v.elems|)
  {
    if IsSequence(v) then
      if |v.elems| == 2 then Ok(Stmt(v.elems[0], v.elems[1])) else Err(NotAPair(|v.elems|))
    else
      Ok(Stmt(v, Null))
  }

  /** The payload element that writes a statement down: the bare SQL when it has
      no parameters and is not itself a sequence, else the pair. */
  function Element(st: Stmt): Val {
    if st.params == Null && !IsSequence(st.sql) then st.sql else Tuple([st.sql, st.params])
  }

  /** Splitting the element written for a statement gives the statement back. */
  lemma SqlParamsElement(st: Stmt)
    ensures SqlParams(Element(st)) == Ok(st)
  {
  }

  /** The statements of a payload: a bare top-level value is wrapped as a
      one-element sequence. */
  function Statements(v: Val): (ss: seq<Val>)
    ensures !IsSequence(v) ==> ss == [v]
    ensures IsSequence(v) ==> ss == v.elems
  {
    if IsSequence(v) then v.elems else [v]
  }

  /** Splits every element; fails when any element fails. */
  function NormalizeAll(ss: seq<Val>): (r: Result<seq<Stmt>, SqlError>)
    ensures r.Ok? <==> forall i | 0 <= i < |ss| :: SqlParams(ss[i]).Ok?
    ensures r.Ok? ==> |r.value| == |ss| && forall i | 0 <= i < |ss| :: SqlParams(ss[i]) == Ok(r.value[i])
  {
    if ss == [] then Ok([])
    else
      var st :- SqlParams(ss[0]);
      var rest :- NormalizeAll(ss[1..]);
      assert forall i | 1 <= i < |ss| :: ss[i] == ss[1..][i - 1];
      Ok([st] + rest)
  }

  /** The normal form of a payload: its list of `(sql, params)` statements. */
  function Normalize(v: Val): Result<seq<Stmt>, SqlError> {
    NormalizeAll(Statements(v))
  }

  /** The first `n` elements of both lists split cleanly and pairwise equal. */
  predicate AgreeUpTo(s1: seq<Val>, s2: seq<Val>, n: nat)
    requires n <= |s1| && n <= |s2|
  {
    forall j | 0 <= j < n :: SqlParams(s1[j]).Ok? && SqlParams(s1[j]) == SqlParams(s2[j])
  }

  /** The loop of `is_sql_equal` over `zip(sqls1, sqls2)`: each pair is split
      (first, then second) and compared; the first difference answers false and
      the first element that does not split raises. */
  function PairwiseEqual(s1: seq<Val>, s2: seq<Val>): (r: Result<bool, SqlError>)
    requires |s1| == |s2|
    ensures r == Ok(true) <==> AgreeUpTo(s1, s2, |s1|)
    ensures NormalizeAll(s1).Ok? && NormalizeAll(s2).Ok? ==> r == Ok(NormalizeAll(s1).value == NormalizeAll(s2).value)
    ensures r.Err? ==> NormalizeAll(s1).Err? || NormalizeAll(s2).Err?
  {
    if s1 == [] then Ok(true)
    else
      var st1 :- SqlParams(s1[0]);
      var st2 :- SqlParams(s2[0]);
      if st1 != st2 then
        assert NormalizeAll(s1).Ok? ==> NormalizeAll(s1).value[0] == st1;
        Ok(false)
      else
        var r := PairwiseEqual(s1[1..], s2[1..]);
        assert forall i | 1 <= i < |s1| :: s1[i] == s1[1..][i - 1] && s2[i] == s2[1..][i - 1];
        assert AgreeUpTo(s1, s2, |s1|) <==> AgreeUpTo(s1[1..], s2[1..], |s1| - 1) by {
          if AgreeUpTo(s1[1..], s2[1..], |s1| - 1) {
            forall j | 0 <= j < |s1| ensures SqlParams(s1[j]).Ok? && SqlParams(s1[j]) == SqlParams(s2[j]) {
              if j > 0 {
                assert SqlParams(s1[1..][j - 1]) == SqlParams(s2[1..][j - 1]);
              }
            }
          }
        }
        r
  }

  /** `is_sql_equal`: payloads of different statement counts differ (before any
      element is split); otherwise the statements are compared pairwise. */
  function IsSqlEqual(a: Val, b: Val): (r: Result<bool, SqlError>)
    ensures |Statements(a)| != |Statements(b)| ==> r == Ok(false)
    ensures Normalize(a).Ok? && Normalize(b).Ok? ==> r == Ok(Normalize(a).value == Normalize(b).value)
    ensures r == Ok(true) ==> Normalize(a).Ok? && Normalize(a) == Normalize(b)
    ensures r.Err? ==> Normalize(a).Err? || Normalize(b).Err?
  {
    var s1 := Statements(a);
    var s2 := Statements(b);
    if |s1| != |s2| then Ok(false)
    else
      var r := PairwiseEqual(s1, s2);
      if r == Ok(true) then
        NormalizeAgree(s1, s2);
        r
      else
        r
  }

  /** Two lists that agree element by element normalize to the same statements. */
  lemma {:induction false} NormalizeAgree(s1: seq<Val>, s2: seq<Val>)
    requires |s1| == |s2| && AgreeUpTo(s1, s2, |s1|)
    ensures NormalizeAll(s1).Ok? && NormalizeAll(s1) == NormalizeAll(s2)
  {
    if s1 != [] {
      assert SqlParams(s1[0]) == SqlParams(s2[0]);
      assert forall j | 0 <= j < |s1| - 1 :: s1[1..][j] == s1[j + 1] && s2[1..][j] == s2[j + 1];
      NormalizeAgree(s1[1..], s2[1..]);
    }
  }

  /** Position `i` is where the pairwise walk stops with a difference. */
  predicate MismatchAt(s1: seq<Val>, s2: seq<Val>, i: nat)
    requires i < |s1| && i < |s2|
  {
    && AgreeUpTo(s1, s2, i)
    && SqlParams(s1[i]).Ok? && SqlParams(s2[i]).Ok?
    && SqlParams(s1[i]) != SqlParams(s2[i])
  }

  /** Position `i` is where the pairwise walk stops with an error, and which. */
  predicate FailureAt(s1: seq<Val>, s2: seq<Val>, i: nat, e: SqlError)
    requires i < |s1| && i < |s2|
  {
    && AgreeUpTo(s1, s2, i)
    && (SqlParams(s1[i]) == Err(e) || (SqlParams(s1[i]).Ok? && SqlParams(s2[i]) == Err(e)))
  }

  /** Agreement on a prefix splits into the head and the rest. */
  lemma AgreeShift(s1: seq<Val>, s2: seq<Val>, i: nat)
    requires |s1| == |s2| && 1 <= i <= |s1|
    ensures AgreeUpTo(s1, s2, i) <==> AgreeUpTo(s1, s2, 1) && AgreeUpTo(s1[1..], s2[1..], i - 1)
  {
    var t1, t2 := s1[1..], s2[1..];
    if AgreeUpTo(s1, s2, 1) && AgreeUpTo(t1, t2, i - 1) {
      forall j | 0 <= j < i ensures SqlParams(s1[j]).Ok? && SqlParams(s1[j]) == SqlParams(s2[j]) {
        if j > 0 {
          assert s1[j] == t1[j - 1] && s2[j] == t2[j - 1];
        }
      }
    }
    if AgreeUpTo(s1, s2, i) {
      forall j | 0 <= j < i - 1 ensures SqlParams(t1[j]).Ok? && SqlParams(t1[j]) == SqlParams(t2[j]) {
        assert s1[j + 1] == t1[j] && s2[j + 1] == t2[j];
      }
    }
  }

  /** The walk answers false exactly at a first difference. */
  lemma {:induction false} PairwiseEqualFalse(s1: seq<Val>, s2: seq<Val>)
    requires |s1| == |s2|
    ensures PairwiseEqual(s1, s2) == Ok(false) <==> exists i | 0 <= i < |s1| :: MismatchAt(s1, s2, i)
  {
    if s1 != [] {
      var t1, t2 := s1[1..], s2[1..];
      PairwiseEqualFalse(t1, t2);
      if SqlParams(s1[0]).Ok? && SqlParams(s2[0]).Ok? && SqlParams(s1[0]) == SqlParams(s2[0]) {
        assert AgreeUpTo(s1, s2, 1);
        if exists i | 0 <= i < |t1| :: MismatchAt(t1, t2, i) {
          var i :| 0 <= i < |t1| && MismatchAt(t1, t2, i);
          AgreeShift(s1, s2, i + 1);
          assert s1[i + 1] == t1[i] && s2[i + 1] == t2[i];
          assert MismatchAt(s1, s2, i + 1);
        }
        if exists i | 0 <= i < |s1| :: MismatchAt(s1, s2, i) {
          var i :| 0 <= i < |s1| && MismatchAt(s1, s2, i);
          AgreeShift(s1, s2, i);
          assert s1[i] == t1[i - 1] && s2[i] == t2[i - 1];
          assert MismatchAt(t1, t2, i - 1);
        }
      } else if SqlParams(s1[0]).Ok? && SqlParams(s2[0]).Ok? {
        assert MismatchAt(s1, s2, 0);
      } else {
        forall i | 0 <= i < |s1| && MismatchAt(s1, s2, i) ensures false {
        }
      }
    }
  }

  /** The walk raises exactly at a first element that does not split, checking
      the left one first. */
  lemma {:induction false} PairwiseEqualErr(s1: seq<Val>, s2: seq<Val>, e: SqlError)
    requires |s1| == |s2|
    ensures PairwiseEqual(s1, s2) == Err(e) <==> exists i | 0 <= i < |s1| :: FailureAt(s1, s2, i, e)
  {
    if s1 != [] {
      var t1, t2 := s1[1..], s2[1..];
      PairwiseEqualErr(t1, t2, e);
      if SqlParams(s1[0]).Ok? && SqlParams(s2[0]).Ok? && SqlParams(s1[0]) == SqlParams(s2[0]) {
        assert AgreeUpTo(s1, s2, 1);
        if exists i | 0 <= i < |t1| :: FailureAt(t1, t2, i, e) {
          var i :| 0 <= i < |t1| && FailureAt(t1, t2, i, e);
          AgreeShift(s1, s2, i + 1);
          assert s1[i + 1] == t1[i] && s2[i + 1] == t2[i];
          assert FailureAt(s1, s2, i + 1, e);
        }
        if exists i | 0 <= i < |s1| :: FailureAt(s1, s2, i, e) {
          var i :| 0 <= i < |s1| && FailureAt(s1, s2, i, e);
          AgreeShift(s1, s2, i);
          assert s1[i] == t1[i - 1] && s2[i] == t2[i - 1];
          assert FailureAt(t1, t2, i - 1, e);
        }
      } else if SqlParams(s1[0]).Ok? && SqlParams(s2[0]).Ok? {
        forall i | 0 <= i < |s1| && FailureAt(s1, s2, i, e) ensures false {
        }
      } else {
        if PairwiseEqual(s1, s2) == Err(e) {
          assert FailureAt(s1, s2, 0, e);
        }
        forall i | 0 <= i < |s1| && FailureAt(s1, s2, i, e) ensures PairwiseEqual(s1, s2) == Err(e) {
        }
      }
    }
  }

  /** The walk answers false exactly at a first difference and raises exactly at
      a first element that does not split, checking the left one first. */
  lemma PairwiseEqualStops(s1: seq<Val>, s2: seq<Val>)
    requires |s1| == |s2|
    ensures PairwiseEqual(s1, s2) == Ok(false) <==> exists i | 0 <= i < |s1| :: MismatchAt(s1, s2, i)
    ensures forall e :: PairwiseEqual(s1, s2) == Err(e) <==> exists i | 0 <= i < |s1| :: FailureAt(s1, s2, i, e)
  {
    PairwiseEqualFalse(s1, s2);
    forall e ensures PairwiseEqual(s1, s2) == Err(e) <==> exists i | 0 <= i < |s1| :: FailureAt(s1, s2, i, e) {
      PairwiseEqualErr(s1, s2, e);
    }
  }

  /** Comparison succeeds or fails the same way whichever payload comes first,
      and when it succeeds the answer is the same. */
  lemma {:induction false} PairwiseEqualSymmetric(s1: seq<Val>, s2: seq<Val>)
    requires |s1| == |s2|
    ensures PairwiseEqual(s1, s2).Ok? <==> PairwiseEqual(s2, s1).Ok?
    ensures PairwiseEqual(s1, s2).Ok? ==> PairwiseEqual(s1, s2) == PairwiseEqual(s2, s1)
  {
    if s1 != [] {
      PairwiseEqualSymmetric(s1[1..], s2[1..]);
    }
  }

  /** `is_sql_equal` is symmetric up to which of two malformed elements it
      reports. */
  lemma IsSqlEqualSymmetric(a: Val, b: Val)
    ensures IsSqlEqual(a, b).Ok? <==> IsSqlEqual(b, a).Ok?
    ensures IsSqlEqual(a, b).Ok? ==> IsSqlEqual(a, b) == IsSqlEqual(b, a)
  {
    if |Statements(a)| == |Statements(b)| {
      PairwiseEqualSymmetric(Statements(a), Statements(b));
    }
  }

  /** A well-formed payload equals itself. */
  lemma IsSqlEqualReflexive(a: Val)
    requires Normalize(a).Ok?
    ensures IsSqlEqual(a, a) == Ok(true)
  {
  }

  /** Wrapping a bare value into a one-element list or tuple is transparent. */
  lemma WrappingIsTransparent(v: Val)
    requires !IsSequence(v)
    ensures IsSqlEqual(v, List([v])) == Ok(true)
    ensures IsSqlEqual(v, Tuple([v])) == Ok(true)
  {
    assert Normalize(List([v])).value == [Stmt(v, Null)];
  }

  /** A pair whose parameters are `None` is the bare statement. */
  lemma NoneParamsAreBare(sql: string)
    ensures IsSqlEqual(Str(sql), List([Tuple([Str(sql), Null])])) == Ok(true)
  {
    assert Normalize(Str(sql)).value == [Stmt(Str(sql), Null)];
    assert Normalize(List([Tuple([Str(sql), Null])])).value == [Stmt(Str(sql), Null)];
  }

  /** `None` parameters differ from an empty parameter list. */
  lemma NoneParamsDifferFromEmpty(sql: string)
    ensures IsSqlEqual(List([Tuple([Str(sql), Null])]), List([Tuple([Str(sql), List([])])])) == Ok(false)
  {
    assert Normalize(List([Tuple([Str(sql), Null])])).value == [Stmt(Str(sql), Null)];
    assert Normalize(List([Tuple([Str(sql), List([])])])).value == [Stmt(Str(sql), List([]))];
  }

  /** Statement counts are compared before any element is split, so a malformed
      element in payloads of different lengths does not raise. */
  lemma LengthComparedFirst(x: Val, y: Val, z: Val)
    ensures IsSqlEqual(List([Tuple([x, y, z])]), List([x, y])) == Ok(false)
  {
  }

  /** A malformed element raises, with its arity. */
  lemma MalformedElementRaises(x: Val)
    ensures IsSqlEqual(List([Tuple([x, x, x])]), Str("SELECT 1")) == Err(NotAPair(3))
  {
  }

  /** `test_flat` of tests/test_app/test_utils.py. */
  lemma FlatComparisonExamples()
    ensures IsSqlEqual(Str("SELECT 1"), Str("SELECT 1")) == Ok(true)
    ensures IsSqlEqual(Str("SELECT 1"), Str("SELECT 2")) == Ok(false)
  {
  }

  /** `test_nested`. */
  lemma NestedComparisonExamples()
    ensures IsSqlEqual(List([Str("SELECT 1"), Str("SELECT 2")]), List([Str("SELECT 1"), Str("SELECT 2")])) == Ok(true)
    ensures IsSqlEqual(List([Str("SELECT 1"), Str("SELECT 2")]), List([Str("SELECT 1"), Str("SELECT 3")])) == Ok(false)
  {
  }

  /** `test_nested_with_params`. */
  lemma ParamComparisonExamples()
    ensures IsSqlEqual(List([Tuple([Str("SELECT %s"), List([Int(1)])]), Tuple([Str("SELECT %s"), List([Int(2)])])]), List([Tuple([Str("SELECT %s"), List([Int(1)])]), Tuple([Str("SELECT %s"), List([Int(2)])])])) == Ok(true)
    ensures IsSqlEqual(List([Tuple([Str("SELECT %s"), List([Int(1)])]), Tuple([Str("SELECT %s"), List([Int(2)])])]), List([Tuple([Str("SELECT %s"), List([Int(1)])]), Tuple([Str("SELECT %s"), List([Int(3)])])])) == Ok(false)
  {
  }

  /** `test_mixed_with_params`. */
  lemma MixedComparisonExamples()
    ensures IsSqlEqual(List([Tuple([Str("SELECT %s"), List([Int(1)])]), Tuple([Str("SELECT %s"), List([Int(2)])])]), List([Str("SELECT 1"), Tuple([Str("SELECT %s"), List([Int(2)])])])) == Ok(false)
    ensures IsSqlEqual(List([Str("SELECT 1"), Tuple([Str("SELECT %s"), List([Int(2)])])]), List([Str("SELECT 1"), Tuple([Str("SELECT %s"), List([Int(3)])])])) == Ok(false)
  {
  }

  /** `test_mixed_nesting`: a bare string equals the one-element list holding it. */
  lemma NestingComparisonExamples()
    ensures IsSqlEqual(Str("SELECT 1"), List([Str("SELECT 1")])) == Ok(true)
    ensures IsSqlEqual(Str("SELECT 1"), List([Tuple([Str("SELECT %s"), List([Int(1)])])])) == Ok(false)
  {
    WrappingIsTransparent(Str("SELECT 1"));
  }
}
