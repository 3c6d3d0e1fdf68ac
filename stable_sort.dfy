/**
 * Python's `list.sort(key=..., reverse=True)`: a stable sort into descending
 * key order. It is modelled once, as an insertion sort, and used both for the
 * factors of a score explanation (keyed by weight) and for the analysed tasks
 * (keyed by priority score).
 */
module StableSort {

  /** Puts `x` in front of the first element whose key is not above its own. */
  function Insert<T>(x: T, ys: seq<T>, key: T -> real): (r: seq<T>)
    ensures |r| == |ys| + 1
  {
    if ys == [] || key(x) >= key(ys[0]) then [x] + ys
    else [ys[0]] + Insert(x, ys[1..], key)
  }

  function SortDesc<T>(xs: seq<T>, key: T -> real): (r: seq<T>)
    ensures |r| == |xs|
  {
    if xs == [] then [] else Insert(xs[0], SortDesc(xs[1..], key), key)
  }

  lemma {:induction false} InsertPermutes<T>(x: T, ys: seq<T>, key: T -> real)
    ensures multiset(Insert(x, ys, key)) == multiset(ys) + multiset{x}
  {
    if ys != [] && key(x) < key(ys[0]) {
      InsertPermutes(x, ys[1..], key);
      assert ys == [ys[0]] + ys[1..];
    }
  }

  /** The result holds exactly the input's elements, each as often. */
  lemma {:induction false} SortDescPermutes<T>(xs: seq<T>, key: T -> real)
    ensures multiset(SortDesc(xs, key)) == multiset(xs)
  {
    if xs != [] {
      SortDescPermutes(xs[1..], key);
      InsertPermutes(xs[0], SortDesc(xs[1..], key), key);
      assert xs == [xs[0]] + xs[1..];
    }
  }

  ghost predicate NonIncreasing<T>(xs: seq<T>, key: T -> real) {
    forall i, j :: 0 <= i < j < |xs| ==> key(xs[i]) >= key(xs[j])
  }

  /** The elements of `xs` whose key is `v`, in their order in `xs`. */
  function WithKey<T>(xs: seq<T>, key: T -> real, v: real): (r: seq<T>)
    ensures |r| <= |xs|
  {
    if xs == [] then [] else (if key(xs[0]) == v then [xs[0]] else []) + WithKey(xs[1..], key, v)
  }

  lemma {:induction false} InsertNonIncreasing<T>(x: T, ys: seq<T>, key: T -> real)
    requires NonIncreasing(ys, key)
    ensures NonIncreasing(Insert(x, ys, key), key)
  {
    if ys != [] && key(x) < key(ys[0]) {
      var rest := Insert(x, ys[1..], key);
      InsertNonIncreasing(x, ys[1..], key);
      InsertPermutes(x, ys[1..], key);
      forall j | 0 <= j < |rest| ensures key(ys[0]) >= key(rest[j]) {
        assert rest[j] in multiset(rest);
        assert rest[j] == x || rest[j] in multiset(ys[1..]);
      }
    }
  }

  /** The result is in descending key order. */
  lemma {:induction false} SortDescNonIncreasing<T>(xs: seq<T>, key: T -> real)
    ensures NonIncreasing(SortDesc(xs, key), key)
  {
    if xs != [] {
      SortDescNonIncreasing(xs[1..], key);
      InsertNonIncreasing(xs[0], SortDesc(xs[1..], key), key);
    }
  }

  lemma {:induction false} InsertWithKey<T>(x: T, ys: seq<T>, key: T -> real, v: real)
    requires NonIncreasing(ys, key)
    ensures WithKey(Insert(x, ys, key), key, v) == (if key(x) == v then [x] else []) + WithKey(ys, key, v)
  {
    var r := Insert(x, ys, key);
    if ys == [] || key(x) >= key(ys[0]) {
      assert r[0] == x && r[1..] == ys;
    } else {
      var rest := Insert(x, ys[1..], key);
      assert r[0] == ys[0] && r[1..] == rest;
      InsertWithKey(x, ys[1..], key, v);
      var head := if key(ys[0]) == v then [ys[0]] else [];
      var mine := if key(x) == v then [x] else [];
      assert WithKey(r, key, v) == head + WithKey(rest, key, v);
      assert WithKey(ys, key, v) == head + WithKey(ys[1..], key, v);
      assert head == [] || mine == [];
    }
  }

  /**
   * Stability: for every key value, the elements carrying it appear in the
   * result in the same order as in the input.
   */
  lemma {:induction false} SortDescStable<T>(xs: seq<T>, key: T -> real, v: real)
    ensures WithKey(SortDesc(xs, key), key, v) == WithKey(xs, key, v)
  {
    if xs != [] {
      SortDescStable(xs[1..], key, v);
      SortDescNonIncreasing(xs[1..], key);
      InsertWithKey(xs[0], SortDesc(xs[1..], key), key, v);
    }
  }

  ghost predicate StrictlyRanked<T>(xs: seq<T>, rank: T -> int) {
    forall i, j :: 0 <= i < j < |xs| ==> rank(xs[i]) < rank(xs[j])
  }

  /** Descending by key, and among equal keys ascending by rank. */
  ghost predicate KeyThenRank<T>(xs: seq<T>, key: T -> real, rank: T -> int) {
    forall i, j :: 0 <= i < j < |xs| ==>
      key(xs[i]) > key(xs[j]) || (key(xs[i]) == key(xs[j]) && rank(xs[i]) < rank(xs[j]))
  }

  lemma {:induction false} InsertKeyThenRank<T>(x: T, ys: seq<T>, key: T -> real, rank: T -> int)
    requires KeyThenRank(ys, key, rank)
    requires forall y :: y in ys ==> rank(x) < rank(y)
    ensures KeyThenRank(Insert(x, ys, key), key, rank)
  {
    if ys != [] && key(x) < key(ys[0]) {
      var rest := Insert(x, ys[1..], key);
      InsertKeyThenRank(x, ys[1..], key, rank);
      InsertPermutes(x, ys[1..], key);
      forall j | 0 <= j < |rest|
        ensures key(ys[0]) > key(rest[j]) || (key(ys[0]) == key(rest[j]) && rank(ys[0]) < rank(rest[j]))
      {
        assert rest[j] in multiset(rest);
        assert rest[j] == x || rest[j] in multiset(ys[1..]);
      }
      ConsKeyThenRank(ys[0], rest, key, rank);
    } else {
      forall j | 0 <= j < |ys|
        ensures key(x) > key(ys[j]) || (key(x) == key(ys[j]) && rank(x) < rank(ys[j]))
      {
        assert ys[j] in ys;
        assert j == 0 || key(ys[0]) >= key(ys[j]);
      }
      ConsKeyThenRank(x, ys, key, rank);
    }
  }

  lemma ConsKeyThenRank<T>(h: T, rest: seq<T>, key: T -> real, rank: T -> int)
    requires KeyThenRank(rest, key, rank)
    requires forall j :: 0 <= j < |rest| ==>
               key(h) > key(rest[j]) || (key(h) == key(rest[j]) && rank(h) < rank(rest[j]))
    ensures KeyThenRank([h] + rest, key, rank)
  {
    var r := [h] + rest;
    forall i, j | 0 <= i < j < |r|
      ensures key(r[i]) > key(r[j]) || (key(r[i]) == key(r[j]) && rank(r[i]) < rank(r[j]))
    {
      assert r[j] == rest[j - 1];
      if i > 0 {
        assert r[i] == rest[i - 1];
      }
    }
  }

  /**
   * When the input is listed in increasing rank, the sort orders by key and
   * keeps equal keys in input order: what stability means for distinct items.
   */
  lemma {:induction false} SortDescKeyThenRank<T>(xs: seq<T>, key: T -> real, rank: T -> int)
    requires StrictlyRanked(xs, rank)
    ensures KeyThenRank(SortDesc(xs, key), key, rank)
  {
    if xs != [] {
      SortDescKeyThenRank(xs[1..], key, rank);
      SortDescPermutes(xs[1..], key);
      forall y | y in SortDesc(xs[1..], key) ensures rank(xs[0]) < rank(y) {
        assert y in multiset(SortDesc(xs[1..], key));
        var k :| 0 < k < |xs| && xs[k] == y;
      }
      InsertKeyThenRank(xs[0], SortDesc(xs[1..], key), key, rank);
    }
  }

  lemma InsertFront<T>(x: T, ys: seq<T>, key: T -> real)
    requires ys == [] || key(x) >= key(ys[0])
    ensures Insert(x, ys, key) == [x] + ys
  {
  }

  lemma InsertBehind<T>(x: T, y: T, ys: seq<T>, key: T -> real)
    requires key(x) < key(y)
    ensures Insert(x, [y] + ys, key) == [y] + Insert(x, ys, key)
  {
    assert ([y] + ys)[1..] == ys;
  }

  /** The sort of four items, unfolded into its insertions. */
  lemma SortFour<T>(a: T, b: T, c: T, d: T, key: T -> real)
    ensures SortDesc([a, b, c, d], key) == Insert(a, Insert(b, Insert(c, [d], key), key), key)
  {
    var s4, s3, s2 := [a, b, c, d], [b, c, d], [c, d];
    assert s4[0] == a && s4[1..] == s3;
    assert s3[0] == b && s3[1..] == s2;
    assert s2[0] == c && s2[1..] == [d];
    assert [d][0] == d && [d][1..] == [];
    assert SortDesc([d], key) == Insert(d, [], key) == [d];
    assert SortDesc(s2, key) == Insert(c, [d], key);
    assert SortDesc(s3, key) == Insert(b, SortDesc(s2, key), key);
    assert SortDesc(s4, key) == Insert(a, SortDesc(s3, key), key);
  }
}
