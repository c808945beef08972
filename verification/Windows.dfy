/** Bounded windows of recent values, as `collections.deque(maxlen=n)` keeps them. */
module Windows {

  /** `deque.append`: the oldest value leaves a full window. */
  function Push(window: seq<real>, size: nat, x: real): seq<real> {
    var grown := window + [x];
    if |grown| > size then grown[1..] else grown
  }

  /** The last `size` values of a series. */
  function Trailing(xs: seq<real>, size: nat): seq<real> {
    if |xs| <= size then xs else xs[|xs| - size..]
  }

  lemma PushIsTrailing(xs: seq<real>, size: nat, x: real)
    ensures Push(Trailing(xs, size), size, x) == Trailing(xs + [x], size)
  {
  }

  function MaxOf(xs: seq<real>): (m: real)
    requires xs != []
    ensures m in xs && forall i :: 0 <= i < |xs| ==> xs[i] <= m
  {
    if |xs| == 1 then xs[0]
    else
      var m := MaxOf(xs[..|xs| - 1]);
      if xs[|xs| - 1] > m then xs[|xs| - 1] else m
  }

  function MinOf(xs: seq<real>): (m: real)
    requires xs != []
    ensures m in xs && forall i :: 0 <= i < |xs| ==> m <= xs[i]
  {
    if |xs| == 1 then xs[0]
    else
      var m := MinOf(xs[..|xs| - 1]);
      if xs[|xs| - 1] < m then xs[|xs| - 1] else m
  }

  function Sum(xs: seq<real>): real {
    if xs == [] then 0.0 else Sum(xs[..|xs| - 1]) + xs[|xs| - 1]
  }

  /** The sum is the one additive function that is the identity on single values. */
  lemma {:induction false} SumIsAdditive(xs: seq<real>, ys: seq<real>)
    ensures Sum(xs + ys) == Sum(xs) + Sum(ys)
    ensures forall x :: Sum([x]) == x
  {
    forall x: real
      ensures Sum([x]) == x
    {
      assert [x][..0] == [];
    }
    if ys == [] {
      assert xs + ys == xs;
    } else {
      var n := |ys| - 1;
      assert (xs + ys)[..|xs + ys| - 1] == xs + ys[..n];
      SumIsAdditive(xs, ys[..n]);
    }
  }

  function Mean(xs: seq<real>): real
    requires xs != []
  {
    Sum(xs) / |xs| as real
  }
}
