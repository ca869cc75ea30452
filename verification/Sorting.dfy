/** sorted(): stable, so that an element goes behind the ones before it that it is not less than. */
module Sorting {
  function Insert<T>(xs: seq<T>, x: T, less: (T, T) -> bool): (r: seq<T>)
    ensures |r| == |xs| + 1
  {
    if xs == [] || less(x, xs[0]) then [x] + xs else [xs[0]] + Insert(xs[1..], x, less)
  }

  function Sorted<T>(xs: seq<T>, less: (T, T) -> bool): (r: seq<T>)
    ensures |r| == |xs|
    decreases |xs|
  {
    if xs == [] then [] else Insert(Sorted(xs[..|xs| - 1], less), xs[|xs| - 1], less)
  }

  /** less compares by some rank. */
  ghost predicate IsOrder<T(!new)>(less: (T, T) -> bool) {
    && (forall a, b :: less(a, b) ==> !less(b, a))
    && (forall a, b, c :: !less(b, a) && !less(c, b) ==> !less(c, a))
  }

  predicate Ascending<T>(xs: seq<T>, less: (T, T) -> bool) { forall i, j :: 0 <= i < j < |xs| ==> !less(xs[j], xs[i]) }

  lemma {:induction false} InsertAscending<T(!new)>(xs: seq<T>, x: T, less: (T, T) -> bool)
    requires IsOrder(less) && Ascending(xs, less)
    ensures Ascending(Insert(xs, x, less), less)
    ensures forall y :: y in Insert(xs, x, less) <==> y in xs || y == x
  {
    if xs != [] && !less(x, xs[0]) {
      InsertAscending(xs[1..], x, less);
      var rest := Insert(xs[1..], x, less);
      assert forall y :: y in xs <==> y == xs[0] || y in xs[1..];
      forall k | 0 <= k < |rest| ensures !less(rest[k], xs[0]) {
        assert rest[k] in rest;
        if rest[k] in xs[1..] {
          var j :| 0 <= j < |xs[1..]| && xs[1..][j] == rest[k];
          assert xs[j + 1] == rest[k];
        }
      }
    } else {
      forall k | 0 <= k < |xs| ensures !less(xs[k], x) {
        if k > 0 { assert !less(xs[k], xs[0]); }
      }
    }
  }

  /** The elements in order, none lost and none added. */
  lemma {:induction false} SortedAscending<T(!new)>(xs: seq<T>, less: (T, T) -> bool)
    requires IsOrder(less)
    ensures Ascending(Sorted(xs, less), less)
    ensures forall y :: y in Sorted(xs, less) <==> y in xs
    decreases |xs|
  {
    if xs != [] {
      var n := |xs| - 1;
      SortedAscending(xs[..n], less);
      InsertAscending(Sorted(xs[..n], less), xs[n], less);
      assert forall y :: y in xs <==> y in xs[..n] || y == xs[n] by { assert xs == xs[..n] + [xs[n]]; }
      hide IsOrder, Ascending, Insert;
    }
  }
}
