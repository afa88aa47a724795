/** Sorting, filtering and searching lists whose order does not matter. */
module Bags {

  function Filter<T>(xs: seq<T>, p: T -> bool): seq<T> {
    if xs == [] then [] else (if p(xs[0]) then [xs[0]] else []) + Filter(xs[1..], p)
  }

  function Insert<T>(x: T, xs: seq<T>, key: T -> int): seq<T> {
    if xs == [] || key(x) <= key(xs[0]) then [x] + xs else [xs[0]] + Insert(x, xs[1..], key)
  }

  /** `slice().sort((a, b) => key(a) - key(b))`. */
  function SortBy<T>(xs: seq<T>, key: T -> int): seq<T> {
    if xs == [] then [] else Insert(xs[0], SortBy(xs[1..], key), key)
  }

  ghost predicate Increasing<T>(xs: seq<T>, key: T -> int) {
    forall i, j :: 0 <= i < j < |xs| ==> key(xs[i]) <= key(xs[j])
  }

  /** Two positions share an id or a number. */
  predicate HasDup<T>(xs: seq<T>, id: T -> string, num: T -> int) {
    exists i, j :: 0 <= i < j < |xs| && (id(xs[i]) == id(xs[j]) || num(xs[i]) == num(xs[j]))
  }

  /** `hasDuplicateIdentity`: one pass with two sets. */
  method HasDuplicateIdentity<T>(xs: seq<T>, id: T -> string, num: T -> int) returns (dup: bool)
    ensures dup == HasDup(xs, id, num)
  {
    var ids: set<string>, nums: set<int> := {}, {};
    for i := 0 to |xs|
      invariant ids == set k | 0 <= k < i :: id(xs[k])
      invariant nums == set k | 0 <= k < i :: num(xs[k])
      invariant !HasDup(xs[..i], id, num)
    {
      var x := xs[i];
      if id(x) in ids || num(x) in nums {
        var k :| 0 <= k < i && (id(xs[k]) == id(x) || num(xs[k]) == num(x));
        return true;
      }
      ids, nums := ids + {id(x)}, nums + {num(x)};
    }
    assert xs[..|xs|] == xs;
    dup := false;
  }

  // ---- bags -------------------------------------------------------------------

  lemma {:induction false} FilterBag<T>(xs: seq<T>, p: T -> bool, x: T)
    ensures multiset(Filter(xs, p))[x] == if p(x) then multiset(xs)[x] else 0
  {
    if xs != [] {
      FilterBag(xs[1..], p, x);
      assert xs == [xs[0]] + xs[1..];
    }
  }

  lemma SameFilterBag<T(!new)>(xs: seq<T>, ys: seq<T>, p: T -> bool)
    requires multiset(xs) == multiset(ys)
    ensures multiset(Filter(xs, p)) == multiset(Filter(ys, p))
  {
    forall x ensures multiset(Filter(xs, p))[x] == multiset(Filter(ys, p))[x] {
      FilterBag(xs, p, x);
      FilterBag(ys, p, x);
    }
  }

  lemma {:induction false} FilterMember<T>(xs: seq<T>, p: T -> bool, x: T)
    ensures x in Filter(xs, p) <==> x in xs && p(x)
  {
    FilterBag(xs, p, x);
    assert x in Filter(xs, p) <==> multiset(Filter(xs, p))[x] > 0;
    assert x in xs <==> multiset(xs)[x] > 0;
  }

  lemma {:induction false} InsertPermutes<T>(x: T, xs: seq<T>, key: T -> int)
    ensures multiset(Insert(x, xs, key)) == multiset([x] + xs)
  {
    if xs != [] && key(x) > key(xs[0]) {
      InsertPermutes(x, xs[1..], key);
      assert xs == [xs[0]] + xs[1..];
    }
  }

  lemma InsertMember<T>(x: T, xs: seq<T>, key: T -> int, y: T)
    requires y in Insert(x, xs, key)
    ensures y == x || y in xs
  {
    InsertPermutes(x, xs, key);
    assert y in multiset([x] + xs);
  }

  lemma {:induction false} InsertSorts<T>(x: T, xs: seq<T>, key: T -> int)
    requires Increasing(xs, key)
    ensures Increasing(Insert(x, xs, key), key)
  {
    if xs != [] && key(x) > key(xs[0]) {
      InsertSorts(x, xs[1..], key);
      var r := Insert(x, xs[1..], key);
      forall j | 0 <= j < |r| ensures key(xs[0]) <= key(r[j]) {
        InsertMember(x, xs[1..], key, r[j]);
        if r[j] in xs[1..] {
          var k :| 0 <= k < |xs[1..]| && xs[1..][k] == r[j];
          assert xs[k + 1] == r[j];
        }
      }
      PrependSorted(xs[0], r, key);
    }
  }

  lemma PrependSorted<T>(x: T, xs: seq<T>, key: T -> int)
    requires Increasing(xs, key) && forall j :: 0 <= j < |xs| ==> key(x) <= key(xs[j])
    ensures Increasing([x] + xs, key)
  {
  }

  /** Sorting permutes and orders. */
  lemma {:induction false} SortBySorts<T>(xs: seq<T>, key: T -> int)
    ensures Increasing(SortBy(xs, key), key) && multiset(SortBy(xs, key)) == multiset(xs)
  {
    if xs != [] {
      SortBySorts(xs[1..], key);
      InsertSorts(xs[0], SortBy(xs[1..], key), key);
      InsertPermutes(xs[0], SortBy(xs[1..], key), key);
      assert xs == [xs[0]] + xs[1..];
    }
  }

  /** The bag has no repeats and no two elements share an id or a number. */
  ghost predicate IsUnique<T(!new)>(m: multiset<T>, id: T -> string, num: T -> int) {
    && (forall x :: x in m ==> m[x] == 1)
    && (forall x, y :: x in m && y in m && x != y ==> id(x) != id(y) && num(x) != num(y))
  }

  lemma TwiceInBag<T>(xs: seq<T>, i: nat, j: nat)
    requires i < j < |xs| && xs[i] == xs[j]
    ensures multiset(xs)[xs[i]] >= 2
  {
    var a, b := xs[..j], xs[j..];
    assert xs == a + b;
    assert a[i] == xs[i] && b[0] == xs[i];
    assert xs[i] in multiset(a) && xs[i] in multiset(b);
  }

  lemma {:induction false} BagTwice<T>(xs: seq<T>, x: T) returns (i: nat, j: nat)
    requires multiset(xs)[x] >= 2
    ensures i < j < |xs| && xs[i] == x && xs[j] == x
  {
    assert xs == [xs[0]] + xs[1..];
    if xs[0] == x {
      i := 0;
      assert x in multiset(xs[1..]);
      var k :| 0 <= k < |xs[1..]| && xs[1..][k] == x;
      j := k + 1;
    } else {
      i, j := BagTwice(xs[1..], x);
      i, j := i + 1, j + 1;
    }
  }

  /** Having a duplicate identity is a property of the bag. */
  lemma DupIsBagProperty<T(!new)>(xs: seq<T>, id: T -> string, num: T -> int)
    ensures !HasDup(xs, id, num) <==> IsUnique(multiset(xs), id, num)
  {
    var m := multiset(xs);
    if !HasDup(xs, id, num) {
      forall x | x in m ensures m[x] == 1 {
        if m[x] >= 2 { var i, j := BagTwice(xs, x); }
      }
      forall x, y | x in m && y in m && x != y ensures id(x) != id(y) && num(x) != num(y) {
        assert x in xs && y in xs;
        var i :| 0 <= i < |xs| && xs[i] == x;
        var j :| 0 <= j < |xs| && xs[j] == y;
        assert i < j || j < i;
      }
    }
    if HasDup(xs, id, num) {
      var i, j :| 0 <= i < j < |xs| && (id(xs[i]) == id(xs[j]) || num(xs[i]) == num(xs[j]));
      if xs[i] == xs[j] {
        TwiceInBag(xs, i, j);
      } else {
        assert xs[i] in m && xs[j] in m;
      }
    }
  }

  ghost predicate StrictlyIncreasing<T>(xs: seq<T>, key: T -> int) {
    forall i, j :: 0 <= i < j < |xs| ==> key(xs[i]) < key(xs[j])
  }

  lemma UniqueIsStrict<T(!new)>(xs: seq<T>, id: T -> string, num: T -> int)
    requires Increasing(xs, num) && IsUnique(multiset(xs), id, num)
    ensures StrictlyIncreasing(xs, num)
  {
    forall i, j | 0 <= i < j < |xs| ensures num(xs[i]) < num(xs[j]) {
      if xs[i] == xs[j] {
        TwiceInBag(xs, i, j);
      } else {
        assert xs[i] in multiset(xs) && xs[j] in multiset(xs);
      }
    }
  }

  lemma SameHead<T>(a: seq<T>, b: seq<T>, num: T -> int)
    requires multiset(a) == multiset(b) && StrictlyIncreasing(a, num) && StrictlyIncreasing(b, num) && a != [] && b != []
    ensures a[0] == b[0]
  {
    assert a[0] in multiset(b) && b[0] in multiset(a);
    var i :| 0 <= i < |b| && b[i] == a[0];
    var j :| 0 <= j < |a| && a[j] == b[0];
    assert j > 0 ==> num(a[0]) < num(a[j]);
    assert i > 0 ==> num(b[0]) < num(b[i]);
  }

  lemma TailStrict<T>(a: seq<T>, num: T -> int)
    requires a != [] && StrictlyIncreasing(a, num)
    ensures StrictlyIncreasing(a[1..], num)
  {
  }

  lemma TailBag<T>(a: seq<T>)
    requires a != []
    ensures multiset(a[1..]) == multiset(a) - multiset{a[0]}
  {
    assert a == [a[0]] + a[1..];
  }

  lemma SameSize<T>(a: seq<T>, b: seq<T>)
    requires multiset(a) == multiset(b)
    ensures |a| == |b|
  {
    assert |multiset(a)| == |a| && |multiset(b)| == |b|;
  }

  /** A list with distinct numbers has one sorted form. */
  lemma {:induction false} SortedIsUnique<T>(a: seq<T>, b: seq<T>, num: T -> int)
    requires multiset(a) == multiset(b) && StrictlyIncreasing(a, num) && StrictlyIncreasing(b, num)
    ensures a == b
    decreases |a|
  {
    hide StrictlyIncreasing;
    SameSize(a, b);
    if a != [] {
      TailStrict(a, num);
      TailStrict(b, num);
      SameHead(a, b, num);
      TailBag(a);
      TailBag(b);
      SortedIsUnique(a[1..], b[1..], num);
      assert a == [a[0]] + a[1..] && b == [b[0]] + b[1..];
    }
  }

  lemma SubBagUnique<T(!new)>(m: multiset<T>, m': multiset<T>, id: T -> string, num: T -> int)
    requires IsUnique(m, id, num) && m' <= m
    ensures IsUnique(m', id, num)
  {
  }

  lemma FilterUnique<T(!new)>(xs: seq<T>, p: T -> bool, id: T -> string, num: T -> int)
    requires IsUnique(multiset(xs), id, num)
    ensures IsUnique(multiset(Filter(xs, p)), id, num)
  {
    hide IsUnique, Filter;
    forall x ensures multiset(Filter(xs, p))[x] <= multiset(xs)[x] { FilterBag(xs, p, x); }
    SubBagUnique(multiset(xs), multiset(Filter(xs, p)), id, num);
  }

  /** The sorted selection from a list depends only on the bag. */
  lemma SortedSelection<T(!new)>(xs: seq<T>, ys: seq<T>, p: T -> bool, id: T -> string, num: T -> int)
    requires multiset(xs) == multiset(ys) && IsUnique(multiset(xs), id, num)
    ensures SortBy(Filter(xs, p), num) == SortBy(Filter(ys, p), num)
  {
    SameFilterBag(xs, ys, p);
    FilterUnique(xs, p, id, num);
    SortedList(Filter(xs, p), Filter(ys, p), id, num);
  }

  /** The sorted list depends only on the bag. */
  lemma SortedList<T(!new)>(xs: seq<T>, ys: seq<T>, id: T -> string, num: T -> int)
    requires multiset(xs) == multiset(ys) && IsUnique(multiset(xs), id, num)
    ensures SortBy(xs, num) == SortBy(ys, num)
  {
    hide IsUnique, SortBy;
    SortBySorts(xs, num);
    SortBySorts(ys, num);
    UniqueIsStrict(SortBy(xs, num), id, num);
    UniqueIsStrict(SortBy(ys, num), id, num);
    SortedIsUnique(SortBy(xs, num), SortBy(ys, num), num);
  }

  predicate All<T>(xs: seq<T>, p: T -> bool) {
    forall i :: 0 <= i < |xs| ==> p(xs[i])
  }

  lemma AllIsBagProperty<T>(xs: seq<T>, ys: seq<T>, p: T -> bool)
    requires multiset(xs) == multiset(ys)
    ensures All(xs, p) == All(ys, p)
  {
    if All(xs, p) {
      forall i | 0 <= i < |ys| ensures p(ys[i]) {
        assert ys[i] in multiset(xs);
        var k :| 0 <= k < |xs| && xs[k] == ys[i];
      }
    }
    if All(ys, p) {
      forall i | 0 <= i < |xs| ensures p(xs[i]) {
        assert xs[i] in multiset(ys);
        var k :| 0 <= k < |ys| && ys[k] == xs[i];
      }
    }
  }
}
