/** Small shared vocabulary: options, weighted sums and flattening over sequences. */
module Collections {

  datatype Option<+T> = None | Some(value: T)

  /** The sum of a weight over a sequence. Used to count goroutines and to build variants. */
  function Total<T>(weight: T -> nat, xs: seq<T>): nat {
    if |xs| == 0 then 0 else Total(weight, xs[..|xs| - 1]) + weight(xs[|xs| - 1])
  }

  lemma TotalAppend<T>(weight: T -> nat, xs: seq<T>, x: T)
    ensures Total(weight, xs + [x]) == Total(weight, xs) + weight(x)
  {
    assert (xs + [x])[..|xs|] == xs;
  }

  lemma {:induction false} TotalUpdate<T>(weight: T -> nat, xs: seq<T>, i: nat, x: T)
    requires i < |xs|
    ensures Total(weight, xs[i := x]) + weight(xs[i]) == Total(weight, xs) + weight(x)
  {
    var last := |xs| - 1;
    if i == last {
      assert xs[i := x][..last] == xs[..last];
    } else {
      assert xs[i := x][..last] == xs[..last][i := x];
      TotalUpdate(weight, xs[..last], i, x);
    }
  }

  /** A total of zero means every element weighs nothing. */
  lemma {:induction false} TotalZero<T>(weight: T -> nat, xs: seq<T>)
    ensures Total(weight, xs) == 0 <==> forall i :: 0 <= i < |xs| ==> weight(xs[i]) == 0
  {
    if |xs| > 0 {
      var last := |xs| - 1;
      TotalZero(weight, xs[..last]);
      assert forall i :: 0 <= i < last ==> xs[..last][i] == xs[i];
    }
  }

  /** Lowering weights pointwise lowers the total. */
  lemma {:induction false} TotalMonotone<T>(weight: T -> nat, xs: seq<T>, ys: seq<T>)
    requires |xs| == |ys|
    requires forall i :: 0 <= i < |xs| ==> weight(xs[i]) <= weight(ys[i])
    ensures Total(weight, xs) <= Total(weight, ys)
  {
    if |xs| > 0 {
      var last := |xs| - 1;
      TotalMonotone(weight, xs[..last], ys[..last]);
    }
  }

  /** The sequences a function gives for each element, one after the other. */
  function FlatMap<T, U>(f: T -> seq<U>, xs: seq<T>): seq<U> {
    if xs == [] then [] else f(xs[0]) + FlatMap(f, xs[1..])
  }

  lemma {:induction false} FlatMapAppend<T, U>(f: T -> seq<U>, first: seq<T>, second: seq<T>)
    ensures FlatMap(f, first + second) == FlatMap(f, first) + FlatMap(f, second)
  {
    if first == [] {
      assert first + second == second;
    } else {
      assert (first + second)[1..] == first[1..] + second;
      FlatMapAppend(f, first[1..], second);
    }
  }

  lemma {:induction false} FlatMapMember<T, U>(f: T -> seq<U>, xs: seq<T>, y: U)
    ensures y in FlatMap(f, xs) <==> exists i :: 0 <= i < |xs| && y in f(xs[i])
  {
    if xs != [] {
      FlatMapMember(f, xs[1..], y);
      assert forall i :: 0 < i < |xs| ==> xs[i] == xs[1..][i - 1];
    }
  }
}
