/** Table rows as sequences in storage order, and the row-level operations
    the handlers' queries are built from: filtering (`where`), counting
    (`count`), `findFirst`, update and delete by primary key, and the
    uniqueness of primary keys. */
module Rows {
  import opened Http

  /** `findMany({ where: p })`: the rows satisfying `p`, in storage order. */
  function Filter<T(!new)>(s: seq<T>, p: T -> bool): (r: seq<T>)
    ensures |r| <= |s|
    ensures forall x :: x in r <==> x in s && p(x)
    ensures multiset(r) <= multiset(s)
    ensures forall x :: x in s && p(x) ==> multiset(r)[x] == multiset(s)[x]
    ensures r == [] <==> forall x :: x in s ==> !p(x)
  {
    if s == [] then []
    else
      var rest := Filter(s[1..], p);
      assert s == [s[0]] + s[1..];
      if p(s[0]) then [s[0]] + rest else rest
  }

  /** `findFirst({ where: p })`: the first row in storage order satisfying `p`. */
  function FindFirst<T(!new)>(s: seq<T>, p: T -> bool): (r: Option<T>)
    ensures r.Some? <==> exists x :: x in s && p(x)
    ensures r.Some? ==> exists i :: 0 <= i < |s| && s[i] == r.value && p(s[i]) &&
                          forall j :: 0 <= j < i ==> !p(s[j])
  {
    if s == [] then None
    else if p(s[0]) then Some(s[0])
    else
      var r := FindFirst(s[1..], p);
      assert forall x :: x in s && x != s[0] ==> x in s[1..];
      assert r.Some? ==> exists i :: 0 <= i < |s| && s[i] == r.value && p(s[i]) &&
                            forall j :: 0 <= j < i ==> !p(s[j]) by {
        if r.Some? {
          var i :| 0 <= i < |s[1..]| && s[1..][i] == r.value && p(s[1..][i]) &&
                   forall j :: 0 <= j < i ==> !p(s[1..][j]);
          assert s[i + 1] == r.value;
          assert forall j :: 0 < j <= i ==> s[j] == s[1..][j - 1];
        }
      }
      r
  }

  /** Primary keys are pairwise distinct and all below the next key the
      table's sequence will hand out. */
  ghost predicate Keyed<T>(s: seq<T>, key: T -> int, next: int) {
    && (forall i, j :: 0 <= i < j < |s| ==> key(s[i]) != key(s[j]))
    && (forall i :: 0 <= i < |s| ==> key(s[i]) < next)
  }

  /** The row with primary key `k`, if any. */
  function Lookup<T(!new)>(s: seq<T>, key: T -> int, k: int): (r: Option<T>)
    ensures r.Some? <==> exists x :: x in s && key(x) == k
    ensures r.Some? ==> r.value in s && key(r.value) == k
  {
    if s == [] then None
    else if key(s[0]) == k then Some(s[0])
    else
      var r := Lookup(s[1..], key, k);
      assert forall x :: x in s && x != s[0] ==> x in s[1..];
      r
  }

  /** `delete({ where: { id: k } })` on the rows: every row except the one with key `k`. */
  function Remove<T(!new)>(s: seq<T>, key: T -> int, k: int): (r: seq<T>)
    ensures forall x :: x in r <==> x in s && key(x) != k
  {
    if s == [] then []
    else
      var rest := Remove(s[1..], key, k);
      assert s == [s[0]] + s[1..];
      if key(s[0]) == k then rest else [s[0]] + rest
  }

  /** Removing a key keeps the keys distinct and bounded, and with distinct
      keys exactly one row goes when the key is present. */
  lemma {:induction false} RemoveKeyed<T(!new)>(s: seq<T>, key: T -> int, k: int, next: int)
    requires Keyed(s, key, next)
    ensures Keyed(Remove(s, key, k), key, next)
    ensures |Remove(s, key, k)| == if exists x :: x in s && key(x) == k then |s| - 1 else |s|
  {
    if s != [] {
      KeyedTail(s, key, next);
      RemoveKeyed(s[1..], key, k, next);
      var rest := Remove(s[1..], key, k);
      assert s == [s[0]] + s[1..];
      if key(s[0]) != k {
        KeyedCons(s[0], rest, key, next);
        assert (exists x :: x in s && key(x) == k) <==> (exists x :: x in s[1..] && key(x) == k);
      }
    }
  }

  /** The rows after the first keep distinct keys, none of them the first row's. */
  lemma KeyedTail<T>(s: seq<T>, key: T -> int, next: int)
    requires s != [] && Keyed(s, key, next)
    ensures Keyed(s[1..], key, next)
    ensures forall x :: x in s[1..] ==> key(x) != key(s[0])
  {
    forall i, j | 0 <= i < j < |s[1..]| ensures key(s[1..][i]) != key(s[1..][j]) {
      assert s[1..][i] == s[i + 1] && s[1..][j] == s[j + 1];
    }
    forall x | x in s[1..] ensures key(x) != key(s[0]) {
      var j :| 0 <= j < |s[1..]| && s[1..][j] == x;
      assert s[j + 1] == x;
    }
  }

  /** A row with a fresh key below `next` can head keyed rows. */
  lemma KeyedCons<T>(h: T, rest: seq<T>, key: T -> int, next: int)
    requires Keyed(rest, key, next) && key(h) < next
    requires forall x :: x in rest ==> key(x) != key(h)
    ensures Keyed([h] + rest, key, next)
  {
    var r := [h] + rest;
    forall i, j | 0 <= i < j < |r| ensures key(r[i]) != key(r[j]) {
      if i == 0 {
        assert r[j] in rest;
      } else {
        assert r[i] == rest[i - 1] && r[j] == rest[j - 1];
      }
    }
    forall i | 0 <= i < |r| ensures key(r[i]) < next {
      if i > 0 {
        assert r[i] == rest[i - 1];
      }
    }
  }

  /** `update({ where: { id: k }, data })` on the rows: the row with key `k`
      becomes `f` of itself; every other row and the order stay. */
  function Update<T>(s: seq<T>, key: T -> int, k: int, f: T -> T): (r: seq<T>)
    ensures |r| == |s|
    ensures forall i :: 0 <= i < |s| ==> r[i] == if key(s[i]) == k then f(s[i]) else s[i]
  {
    if s == [] then []
    else [if key(s[0]) == k then f(s[0]) else s[0]] + Update(s[1..], key, k, f)
  }

  /** Appending a row that carries the next key keeps the keys distinct and
      bounded by the advanced sequence. */
  lemma AppendKeyed<T>(s: seq<T>, key: T -> int, x: T, next: int)
    requires Keyed(s, key, next)
    requires key(x) == next
    ensures Keyed(s + [x], key, next + 1)
  {
  }
}
