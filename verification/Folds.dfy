/**
 Sequential row insertion, seen three ways: a fold that stops at the first error, a table that
 keeps the first row offered for each key, and a stable sort that must not change either.
 */
module Folds {
  import opened Prelude

  /** Feed `xs` to `step` from left to right, stopping at the first error. */
  function TryFold<S, T>(s: S, xs: seq<T>, step: (S, T) -> Result<S>): Result<S> {
    if xs == [] then Ok(s)
    else
      match TryFold(s, xs[..|xs| - 1], step)
      case Err(e) => Err(e)
      case Ok(mid) => step(mid, xs[|xs| - 1])
  }

  lemma {:induction false} TryFoldConcat<S, T>(s: S, a: seq<T>, b: seq<T>, step: (S, T) -> Result<S>)
    ensures TryFold(s, a + b, step) ==
            match TryFold(s, a, step)
            case Err(e) => Err(e)
            case Ok(mid) => TryFold(mid, b, step)
  {
    if b == [] {
      assert a + b == a;
    } else {
      TryFoldConcat(s, a, b[..|b| - 1], step);
      assert (a + b)[..|a + b| - 1] == a + b[..|b| - 1];
    }
  }

  // ---------- the rows of many sources, in order ----------

  function Flatten<S, T>(xs: seq<S>, rows: S -> seq<T>): seq<T> {
    if xs == [] then [] else Flatten(xs[..|xs| - 1], rows) + rows(xs[|xs| - 1])
  }

  lemma {:induction false} FlattenConcat<S, T>(a: seq<S>, b: seq<S>, rows: S -> seq<T>)
    ensures Flatten(a + b, rows) == Flatten(a, rows) + Flatten(b, rows)
  {
    if b == [] {
      assert a + b == a;
    } else {
      FlattenConcat(a, b[..|b| - 1], rows);
      assert (a + b)[..|a + b| - 1] == a + b[..|b| - 1];
    }
  }

  // ---------- INSERT ... ON CONFLICT DO NOTHING ----------

  /** The table after offering `xs` in order: a row lands only when its key is still free. */
  function FirstWins<K, V>(m: map<K, V>, xs: seq<V>, key: V -> K): map<K, V> {
    if xs == [] then m
    else KeepFirst(FirstWins(m, xs[..|xs| - 1], key), xs[|xs| - 1], key)
  }

  function KeepFirst<K, V>(m: map<K, V>, x: V, key: V -> K): map<K, V> {
    if key(x) in m then m else m[key(x) := x]
  }

  lemma {:induction false} FirstWinsConcat<K, V>(m: map<K, V>, a: seq<V>, b: seq<V>, key: V -> K)
    ensures FirstWins(m, a + b, key) == FirstWins(FirstWins(m, a, key), b, key)
  {
    if b == [] {
      assert a + b == a;
    } else {
      FirstWinsConcat(m, a, b[..|b| - 1], key);
      assert (a + b)[..|a + b| - 1] == a + b[..|b| - 1];
    }
  }

  /** Old rows stay, every offered key ends up present, and each new row was offered under its own key. */
  lemma {:induction false} FirstWinsContents<K, V>(m: map<K, V>, xs: seq<V>, key: V -> K)
    ensures FirstWins(m, xs, key).Keys == m.Keys + set x | x in xs :: key(x)
    ensures forall k :: k in m ==> FirstWins(m, xs, key)[k] == m[k]
    ensures forall k :: k in FirstWins(m, xs, key) && k !in m ==>
                          FirstWins(m, xs, key)[k] in xs && key(FirstWins(m, xs, key)[k]) == k
  {
    if xs != [] {
      var ys, x := xs[..|xs| - 1], xs[|xs| - 1];
      FirstWinsContents(m, ys, key);
      assert xs == ys + [x];
      assert (set y | y in xs :: key(y)) == (set y | y in ys :: key(y)) + {key(x)};
    }
  }

  // ---------- stable sort by a (height, index) key ----------

  predicate KeyLeq(a: (int, int), b: (int, int)) {
    a.0 < b.0 || (a.0 == b.0 && a.1 <= b.1)
  }

  ghost predicate SortedBy<T>(xs: seq<T>, key: T -> (int, int)) {
    forall i, j :: 0 <= i < j < |xs| ==> KeyLeq(key(xs[i]), key(xs[j]))
  }

  function InsertSorted<T>(xs: seq<T>, x: T, key: T -> (int, int)): seq<T> {
    if xs == [] || KeyLeq(key(xs[|xs| - 1]), key(x)) then xs + [x]
    else InsertSorted(xs[..|xs| - 1], x, key) + [xs[|xs| - 1]]
  }

  function StableSort<T>(xs: seq<T>, key: T -> (int, int)): seq<T> {
    if xs == [] then []
    else InsertSorted(StableSort(xs[..|xs| - 1], key), xs[|xs| - 1], key)
  }

  /** The rows that carry sort key `k`, in order. */
  function WithKey<T>(xs: seq<T>, k: (int, int), key: T -> (int, int)): seq<T> {
    if xs == [] then []
    else
      var rest := WithKey(xs[..|xs| - 1], k, key);
      if key(xs[|xs| - 1]) == k then rest + [xs[|xs| - 1]] else rest
  }

  lemma {:induction false} InsertSortedRows<T>(xs: seq<T>, x: T, key: T -> (int, int))
    ensures multiset(InsertSorted(xs, x, key)) == multiset(xs) + multiset{x}
  {
    if xs == [] || KeyLeq(key(xs[|xs| - 1]), key(x)) {
    } else {
      InsertSortedRows(xs[..|xs| - 1], x, key);
      assert xs == xs[..|xs| - 1] + [xs[|xs| - 1]];
    }
  }

  lemma {:induction false} InsertSortedOrder<T>(xs: seq<T>, x: T, key: T -> (int, int))
    requires SortedBy(xs, key)
    ensures SortedBy(InsertSorted(xs, x, key), key)
  {
    if xs == [] || KeyLeq(key(xs[|xs| - 1]), key(x)) {
    } else {
      var ys, z := xs[..|xs| - 1], xs[|xs| - 1];
      InsertSortedOrder(ys, x, key);
      InsertSortedRows(ys, x, key);
      var r := InsertSorted(ys, x, key);
      forall i | 0 <= i < |r| ensures KeyLeq(key(r[i]), key(z)) {
        assert r[i] in multiset(r);
        assert r[i] in ys || r[i] == x;
      }
    }
  }

  lemma {:induction false} InsertSortedStable<T>(xs: seq<T>, x: T, key: T -> (int, int), k: (int, int))
    ensures WithKey(InsertSorted(xs, x, key), k, key) ==
            WithKey(xs, k, key) + if key(x) == k then [x] else []
  {
    if xs == [] || KeyLeq(key(xs[|xs| - 1]), key(x)) {
      assert (xs + [x])[..|xs|] == xs;
    } else {
      var ys, z := xs[..|xs| - 1], xs[|xs| - 1];
      InsertSortedStable(ys, x, key, k);
      var r := InsertSorted(ys, x, key);
      assert (r + [z])[..|r|] == r;
    }
  }

  /** What "stable sort" means: ordered, the same rows, and rows with equal keys keep their order. */
  lemma {:induction false} StableSortSound<T>(xs: seq<T>, key: T -> (int, int), k: (int, int))
    ensures SortedBy(StableSort(xs, key), key)
    ensures multiset(StableSort(xs, key)) == multiset(xs)
    ensures WithKey(StableSort(xs, key), k, key) == WithKey(xs, k, key)
  {
    if xs != [] {
      var ys, x := xs[..|xs| - 1], xs[|xs| - 1];
      StableSortSound(ys, key, k);
      var s := StableSort(ys, key);
      InsertSortedRows(s, x, key);
      InsertSortedOrder(s, x, key);
      InsertSortedStable(s, x, key, k);
      assert xs == ys + [x];
    }
  }

  lemma {:induction false} SortOfSorted<T>(xs: seq<T>, key: T -> (int, int))
    requires SortedBy(xs, key)
    ensures StableSort(xs, key) == xs
  {
    if xs != [] {
      SortOfSorted(xs[..|xs| - 1], key);
      assert xs == xs[..|xs| - 1] + [xs[|xs| - 1]];
    }
  }

  /** Rows the sort would swap never compete for the same primary key. */
  ghost predicate NoKeyInversion<K, V>(xs: seq<V>, key: V -> (int, int), pk: V -> K) {
    forall i, j :: 0 <= i < j < |xs| && !KeyLeq(key(xs[i]), key(xs[j])) ==> pk(xs[i]) != pk(xs[j])
  }

  lemma {:induction false} InsertSortedKeepsFirstWins<K, V>(
      m: map<K, V>, s: seq<V>, x: V, key: V -> (int, int), pk: V -> K)
    requires forall y :: y in s && !KeyLeq(key(y), key(x)) ==> pk(y) != pk(x)
    ensures FirstWins(m, InsertSorted(s, x, key), pk) == FirstWins(m, s + [x], pk)
  {
    if s == [] || KeyLeq(key(s[|s| - 1]), key(x)) {
    } else {
      var t, z := s[..|s| - 1], s[|s| - 1];
      InsertSortedKeepsFirstWins(m, t, x, key, pk);
      var r := InsertSorted(t, x, key);
      assert (r + [z])[..|r|] == r;
      assert (t + [x])[..|t|] == t && (s + [x])[..|s|] == s;
      assert pk(z) != pk(x);
      var f := FirstWins(m, t, pk);
      assert KeepFirst(KeepFirst(f, x, pk), z, pk) == KeepFirst(KeepFirst(f, z, pk), x, pk);
    }
  }

  /** Sorting before a first-writer-wins insert changes nothing. */
  lemma {:induction false} SortKeepsFirstWins<K, V>(m: map<K, V>, xs: seq<V>, key: V -> (int, int), pk: V -> K)
    requires NoKeyInversion(xs, key, pk)
    ensures FirstWins(m, StableSort(xs, key), pk) == FirstWins(m, xs, pk)
  {
    if xs != [] {
      var ys, x := xs[..|xs| - 1], xs[|xs| - 1];
      SortKeepsFirstWins(m, ys, key, pk);
      var s := StableSort(ys, key);
      StableSortSound(ys, key, (0, 0));
      forall y | y in s && !KeyLeq(key(y), key(x)) ensures pk(y) != pk(x) {
        assert y in multiset(s);
        assert y in ys;
        var i :| 0 <= i < |ys| && ys[i] == y;
        assert xs[i] == y && xs[|xs| - 1] == x;
      }
      InsertSortedKeepsFirstWins(m, s, x, key, pk);
      assert (s + [x])[..|s|] == s;
    }
  }

  // ---------- filters ----------

  /** `ys` are, in order and each once, what the picked elements of `xs` give; `at` are their places. */
  ghost predicate Gathers<T(!new), U(!new)>(xs: seq<T>, pick: T -> Option<U>, ys: seq<U>, at: seq<nat>) {
    && |at| == |ys| && (forall k :: 0 <= k < |at| ==> at[k] < |xs| && pick(xs[at[k]]) == Some(ys[k]))
    && (forall i, j :: 0 <= i < j < |at| ==> at[i] < at[j])
    && (forall j: nat :: j < |xs| && pick(xs[j]).Some? ==> j in at)
  }

  lemma {:induction false} GathersSnoc<T(!new), U(!new)>(
      xs: seq<T>, x: T, pick: T -> Option<U>, ys: seq<U>, at: seq<nat>)
    requires Gathers(xs, pick, ys, at)
    ensures pick(x).None? ==> Gathers(xs + [x], pick, ys, at)
    ensures pick(x).Some? ==> Gathers(xs + [x], pick, ys + [pick(x).value], at + [|xs|])
  {
  }
}
