/** Generic sequence operations for the table queries: `WHERE` as an
    order-preserving filter, `ORDER BY key DESC` as a stable insertion sort,
    and the first maximal element as the reference for `LIMIT 1`. */
module Sequences {
  import opened Wrappers

  /** The elements satisfying `p`, in their original order. */
  function Filter<T(!new)>(s: seq<T>, p: T -> bool): (r: seq<T>)
    ensures |r| <= |s|
    ensures forall x :: x in r <==> x in s && p(x)
    ensures forall i :: 0 <= i < |r| ==> p(r[i])
  {
    if s == [] then [] else (if p(s[0]) then [s[0]] else []) + Filter(s[1..], p)
  }

  /** The number of elements satisfying `p`, counted independently of `Filter`. */
  function Count<T(!new)>(s: seq<T>, p: T -> bool): nat {
    if s == [] then 0 else (if p(s[0]) then 1 else 0) + Count(s[1..], p)
  }

  predicate SortedDesc<T(!new)>(s: seq<T>, key: T -> int) {
    forall i, j :: 0 <= i < j < |s| ==> key(s[i]) >= key(s[j])
  }

  /** Inserts `x` before the first element whose key is not greater than its own. */
  function InsertDesc<T(!new)>(x: T, s: seq<T>, key: T -> int): (r: seq<T>)
    ensures multiset(r) == multiset(s) + multiset{x}
    ensures |r| == |s| + 1
  {
    if s == [] || key(x) >= key(s[0]) then [x] + s
    else
      assert s == [s[0]] + s[1..];
      [s[0]] + InsertDesc(x, s[1..], key)
  }

  /** `ORDER BY key DESC`, with ties kept in table order. */
  function SortDesc<T(!new)>(s: seq<T>, key: T -> int): (r: seq<T>)
    ensures multiset(r) == multiset(s)
    ensures |r| == |s|
  {
    if s == [] then []
    else
      assert s == [s[0]] + s[1..];
      InsertDesc(s[0], SortDesc(s[1..], key), key)
  }

  /** The first element of greatest key, or None for an empty sequence. */
  function Latest<T(!new)>(s: seq<T>, key: T -> int): (r: Option<T>)
    ensures r.None? <==> s == []
    ensures r.Some? ==> r.value in s
    ensures r.Some? ==> forall x :: x in s ==> key(x) <= key(r.value)
  {
    if s == [] then None
    else
      var rest := Latest(s[1..], key);
      assert forall x :: x in s ==> x == s[0] || x in s[1..];
      if rest.None? || key(s[0]) >= key(rest.value) then Some(s[0]) else rest
  }

  lemma {:induction false} CountIsFilterLength<T(!new)>(s: seq<T>, p: T -> bool)
    ensures Count(s, p) == |Filter(s, p)|
  {
    if s != [] {
      CountIsFilterLength(s[1..], p);
    }
  }

  /** Filtering twice with the same predicate is filtering once. */
  lemma {:induction false} FilterIdempotent<T(!new)>(s: seq<T>, p: T -> bool)
    ensures Filter(Filter(s, p), p) == Filter(s, p)
  {
    if s != [] {
      FilterIdempotent(s[1..], p);
      var f := Filter(s, p);
      if p(s[0]) {
        assert f == [s[0]] + Filter(s[1..], p);
        assert f[0] == s[0] && f[1..] == Filter(s[1..], p);
        assert Filter(f, p) == [f[0]] + Filter(f[1..], p);
      } else {
        assert f == Filter(s[1..], p);
      }
    }
  }

  /** Filtering by `p` keeps exactly the elements `Count` counts. */
  lemma {:induction false} FilterMultiset<T(!new)>(s: seq<T>, p: T -> bool)
    ensures forall x :: p(x) ==> multiset(Filter(s, p))[x] == multiset(s)[x]
    ensures forall x :: !p(x) ==> multiset(Filter(s, p))[x] == 0
  {
    if s != [] {
      FilterMultiset(s[1..], p);
      assert s == [s[0]] + s[1..];
    }
  }

  lemma {:induction false} InsertDescSorted<T(!new)>(x: T, s: seq<T>, key: T -> int)
    requires SortedDesc(s, key)
    ensures SortedDesc(InsertDesc(x, s, key), key)
  {
    if s != [] && key(x) < key(s[0]) {
      InsertDescSorted(x, s[1..], key);
      var t := InsertDesc(x, s[1..], key);
      assert t[0] == x || t[0] == s[1];
    }
  }

  /** The sort yields a descending order. */
  lemma {:induction false} SortDescSorted<T(!new)>(s: seq<T>, key: T -> int)
    ensures SortedDesc(SortDesc(s, key), key)
  {
    if s != [] {
      SortDescSorted(s[1..], key);
      InsertDescSorted(s[0], SortDesc(s[1..], key), key);
    }
  }

  /** The head of the sorted sequence is the first element of greatest key. */
  lemma {:induction false} SortDescHeadIsLatest<T(!new)>(s: seq<T>, key: T -> int)
    requires s != []
    ensures SortDesc(s, key)[0] == Latest(s, key).value
  {
    if s[1..] != [] {
      SortDescHeadIsLatest(s[1..], key);
    }
  }

  /** Filtering a sequence extended at the end extends the filtered sequence. */
  lemma {:induction false} FilterSnoc<T(!new)>(s: seq<T>, x: T, p: T -> bool)
    ensures Filter(s + [x], p) == Filter(s, p) + (if p(x) then [x] else [])
  {
    if s != [] {
      assert (s + [x])[1..] == s[1..] + [x];
      FilterSnoc(s[1..], x, p);
    }
  }
}
