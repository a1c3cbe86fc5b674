/** Failure-aware result types and the two bounds every module needs. */
module Prelude {

  datatype Option<+T> = None | Some(value: T)

  /** Why a database statement, a chain call or a conversion failed. */
  datatype Error =
    | UniqueViolation
    | ForeignKeyViolation
    | DuplicateUpsertTarget
    | DatabaseDown
    | ChainFailure
    | MissingField
    | OutOfRange
    | BadEvent

  datatype Result<+T> = Ok(value: T) | Err(error: Error) {
    predicate IsFailure() {
      Err?
    }

    function PropagateFailure<U>(): Result<U>
      requires Err?
    {
      Err(error)
    }

    function Extract(): T
      requires Ok?
    {
      value
    }
  }

  function Max(a: int, b: int): int {
    if a < b then b else a
  }

  function Min(a: int, b: int): int {
    if a < b then a else b
  }

  /** Moving one entry from `rest` to `done` leaves their union unchanged. */
  lemma {:induction false} MoveEntry<K, V>(done: map<K, V>, rest: map<K, V>, a: K)
    requires a in rest
    ensures done[a := rest[a]] + (rest - {a}) == done + rest
  {
    var l, r := done[a := rest[a]] + (rest - {a}), done + rest;
    forall k ensures k in l <==> k in r {
    }
    forall k | k in r ensures l[k] == r[k] {
    }
  }

  lemma {:induction false} RemoveShrinks<K, V>(rest: map<K, V>, a: K)
    requires a in rest
    ensures |rest - {a}| < |rest|
  {
    assert (rest - {a}).Keys == rest.Keys - {a};
    assert |(rest - {a}).Keys| == |rest - {a}| && |rest.Keys| == |rest|;
  }

  ghost predicate IsMax(s: set<int>, m: int) {
    m in s && forall x :: x in s ==> x <= m
  }

  lemma {:induction false} HasMax(s: set<int>)
    requires s != {}
    ensures exists m :: IsMax(s, m)
  {
    assert (forall y :: y !in s) ==> s == {};
    var x :| x in s;
    var rest := s - {x};
    assert forall y :: y in s ==> y == x || y in rest;
    if rest == {} {
      assert IsMax(s, x);
    } else {
      HasMax(rest);
      var m :| IsMax(rest, m);
      if m < x {
        assert IsMax(s, x);
      } else {
        assert IsMax(s, m);
      }
    }
  }
}
