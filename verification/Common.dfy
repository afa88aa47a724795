/** Shared vocabulary: optional values and JavaScript's number and string primitives. */
module Common {

  datatype Option<+T> = None | Some(value: T)

  /** `Number.MAX_SAFE_INTEGER`. */
  const MAX_SAFE_INTEGER: int := 9007199254740991

  /** `Number.isSafeInteger`; `None` stands for any value that is not an integral number. */
  predicate IsSafeInteger(n: Option<int>) {
    n.Some? && -MAX_SAFE_INTEGER <= n.value <= MAX_SAFE_INTEGER
  }

  /** A safe integer that is not negative. */
  predicate IsSafeNat(n: Option<int>) {
    IsSafeInteger(n) && n.value >= 0
  }

  /** `a || b` on strings, the empty string being falsy. */
  function OrElse(a: string, b: string): string {
    if a == "" then b else a
  }

  /** Decimal text of a natural number, as a template literal prints it. */
  function Decimal(n: nat): string {
    if n < 10 then [('0' as int + n) as char]
    else Decimal(n / 10) + Decimal(n % 10)
  }

  function Flatten<T>(xss: seq<seq<T>>): seq<T> {
    if xss == [] then [] else Flatten(xss[..|xss| - 1]) + xss[|xss| - 1]
  }

  lemma {:induction false} FlattenConcat<T>(a: seq<seq<T>>, b: seq<seq<T>>)
    ensures Flatten(a + b) == Flatten(a) + Flatten(b)
    decreases |b|
  {
    if b == [] {
      assert a + b == a;
    } else {
      var b' := b[..|b| - 1];
      assert (a + b)[..|a + b| - 1] == a + b';
      FlattenConcat(a, b');
    }
  }

  lemma FlattenCons<T>(x: seq<T>, xs: seq<seq<T>>)
    ensures Flatten([x] + xs) == x + Flatten(xs)
    ensures Flatten([x]) == x
  {
    FlattenConcat([x], xs);
    assert [x][..0] == [];
    assert Flatten([x]) == Flatten<T>([]) + x;
  }

  /** No two positions hold the same value. */
  ghost predicate Distinct<T>(s: seq<T>) {
    forall i, j :: 0 <= i < j < |s| ==> s[i] != s[j]
  }

  lemma SliceSnoc<T>(xs: seq<T>, lo: nat, hi: nat)
    requires lo < hi <= |xs|
    ensures xs[lo..hi] == xs[lo..hi - 1] + [xs[hi - 1]]
  {
  }
}
