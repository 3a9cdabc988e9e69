/** `orderBy: { field: 'asc' | 'desc' }` and `take: k` after an ordering:
    a sort of the rows on an integer key, proved ordered and a permutation
    of its input, and the top-k selection built on it. Rows with equal keys
    keep no particular order in the database; here they keep storage order. */
module Ordering {
  import opened Http

  datatype Direction = Asc | Desc

  predicate InOrder(a: int, b: int, d: Direction) {
    if d == Asc then a <= b else a >= b
  }

  ghost predicate OrderedBy<T>(s: seq<T>, key: T -> int, d: Direction) {
    forall i, j :: 0 <= i < j < |s| ==> InOrder(key(s[i]), key(s[j]), d)
  }

  /** A row that comes before every row of an ordered sequence can head it. */
  lemma HeadFirst<T>(h: T, rest: seq<T>, key: T -> int, d: Direction)
    requires OrderedBy(rest, key, d)
    requires forall z :: z in rest ==> InOrder(key(h), key(z), d)
    ensures OrderedBy([h] + rest, key, d)
  {
    var r := [h] + rest;
    forall i, j | 0 <= i < j < |r| ensures InOrder(key(r[i]), key(r[j]), d) {
      if i == 0 {
        assert r[j] in rest;
      } else {
        assert r[i] == rest[i - 1] && r[j] == rest[j - 1];
      }
    }
  }

  /** When `x` does not go before the head of ordered rows, the head can
      lead the rest with `x` inserted. */
  lemma HeadBeforeInserted<T>(x: T, s: seq<T>, rest: seq<T>, key: T -> int, d: Direction)
    requires s != [] && OrderedBy(s, key, d) && !InOrder(key(x), key(s[0]), d)
    requires OrderedBy(rest, key, d)
    requires multiset(rest) == multiset(s[1..]) + multiset{x}
    ensures OrderedBy([s[0]] + rest, key, d)
  {
    forall z | z in rest ensures InOrder(key(s[0]), key(z), d) {
      assert z in multiset(rest);
      if z != x {
        assert z in multiset(s[1..]);
        var m :| 0 <= m < |s[1..]| && s[1..][m] == z;
        assert s[m + 1] == z;
      }
    }
    HeadFirst(s[0], rest, key, d);
  }

  /** Inserts `x` into rows already in order, keeping them in order. */
  function Insert<T>(x: T, s: seq<T>, key: T -> int, d: Direction): (r: seq<T>)
    requires OrderedBy(s, key, d)
    ensures multiset(r) == multiset(s) + multiset{x}
    ensures |r| == |s| + 1
    ensures OrderedBy(r, key, d)
  {
    if s == [] || InOrder(key(x), key(s[0]), d) then
      [x] + s
    else
      var rest := Insert(x, s[1..], key, d);
      assert s == [s[0]] + s[1..];
      HeadBeforeInserted(x, s, rest, key, d);
      [s[0]] + rest
  }

  /** The rows ordered on `key` in direction `d`: the same rows, in order. */
  function SortBy<T>(s: seq<T>, key: T -> int, d: Direction): (r: seq<T>)
    ensures multiset(r) == multiset(s)
    ensures |r| == |s|
    ensures OrderedBy(r, key, d)
  {
    if s == [] then []
    else
      assert s == [s[0]] + s[1..];
      Insert(s[0], SortBy(s[1..], key, d), key, d)
  }

  /** Sorting keeps exactly the rows it was given. */
  lemma SortBySameRows<T>(s: seq<T>, key: T -> int, d: Direction)
    ensures forall x :: x in SortBy(s, key, d) <==> x in s
  {
    var r := SortBy(s, key, d);
    forall x ensures x in r <==> x in s {
      assert x in r <==> x in multiset(r);
      assert x in s <==> x in multiset(s);
    }
  }

  /** `orderBy: { key: 'desc' }, take: k`: at most `k` rows, in descending
      order of key, all of them rows of the input. */
  function Top<T>(s: seq<T>, key: T -> int, k: nat): (r: seq<T>)
    ensures |r| == Min(k, |s|)
    ensures OrderedBy(r, key, Desc)
    ensures multiset(r) <= multiset(s)
  {
    var sorted := SortBy(s, key, Desc);
    assert sorted == sorted[..Min(k, |s|)] + sorted[Min(k, |s|)..];
    sorted[..Min(k, |s|)]
  }

  /** Nothing left out of the top `k` outranks anything kept: a row of the
      input that is not selected has a key no larger than every selected row. */
  lemma {:induction false} TopIsTop<T>(s: seq<T>, key: T -> int, k: nat, y: T)
    requires y in s && y !in Top(s, key, k)
    ensures |Top(s, key, k)| == k
    ensures forall z :: z in Top(s, key, k) ==> key(z) >= key(y)
  {
    var sorted := SortBy(s, key, Desc);
    var r := Top(s, key, k);
    assert y in multiset(sorted);
    var j :| 0 <= j < |sorted| && sorted[j] == y;
    if j < Min(k, |s|) {
      assert false;
    }
    forall z | z in r ensures key(z) >= key(y) {
      var i :| 0 <= i < |r| && r[i] == z;
      assert sorted[i] == z;
    }
  }

  /** A page cut from ordered rows is itself ordered. */
  lemma WindowOrdered<T>(s: seq<T>, key: T -> int, d: Direction, page: int, limit: int)
    requires OrderedBy(s, key, d)
    requires Window(s, page, limit).Some?
    ensures OrderedBy(Window(s, page, limit).value, key, d)
  {
  }
}
