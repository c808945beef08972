/** Insertion sort: elements that `stays` leaves in front of a new one keep their order, as a stable sort does. */
module Sorting {

  function Insert<T>(xs: seq<T>, x: T, stays: (T, T) -> bool): (r: seq<T>)
    ensures |r| == |xs| + 1
  {
    if |xs| == 0 || stays(xs[|xs| - 1], x) then xs + [x]
    else Insert(xs[..|xs| - 1], x, stays) + [xs[|xs| - 1]]
  }

  function Sort<T>(xs: seq<T>, stays: (T, T) -> bool): (r: seq<T>)
    ensures |r| == |xs|
  {
    if |xs| == 0 then [] else Insert(Sort(xs[..|xs| - 1], stays), xs[|xs| - 1], stays)
  }

  lemma {:induction false} InsertMembers<T>(xs: seq<T>, x: T, stays: (T, T) -> bool, y: T)
    ensures y in Insert(xs, x, stays) <==> y in xs || y == x
  {
    if |xs| > 0 && !stays(xs[|xs| - 1], x) {
      InsertMembers(xs[..|xs| - 1], x, stays, y);
      assert xs == xs[..|xs| - 1] + [xs[|xs| - 1]];
    }
  }

  lemma {:induction false} SortMembers<T>(xs: seq<T>, stays: (T, T) -> bool, y: T)
    ensures y in Sort(xs, stays) <==> y in xs
  {
    if |xs| > 0 {
      SortMembers(xs[..|xs| - 1], stays, y);
      InsertMembers(Sort(xs[..|xs| - 1], stays), xs[|xs| - 1], stays, y);
      assert xs == xs[..|xs| - 1] + [xs[|xs| - 1]];
    }
  }
}
