/** Sequence helpers shared by the model: pandas index labels and summation. */
module Collections {
  import opened Wrappers

  /** No label occurs twice, as in a pandas index built from a set or a range. */
  predicate Distinct<T(==)>(xs: seq<T>) {
    forall i, j :: 0 <= i < j < |xs| ==> xs[i] != xs[j]
  }

  function Elems<T>(xs: seq<T>): set<T> {
    set x | x in xs
  }

  /** `range(lo, hi + 1)` as a list. */
  function Range(lo: int, hi: int): seq<int> {
    seq(if lo <= hi then hi - lo + 1 else 0, i => lo + i)
  }

  /** A range lists its numbers once each, in increasing order. */
  lemma RangeDistinct(lo: int, hi: int)
    ensures Distinct(Range(lo, hi))
    ensures forall i, j :: 0 <= i < j < |Range(lo, hi)| ==> Range(lo, hi)[i] < Range(lo, hi)[j]
  {
  }

  /** The position `Index.get_loc` finds for `x`; None where pandas raises KeyError. */
  function IndexOf<T(==)>(labels: seq<T>, x: T): (r: Option<nat>)
    ensures r.None? <==> x !in labels
    ensures r.Some? ==> r.value < |labels| && labels[r.value] == x
    ensures r.Some? ==> forall j :: 0 <= j < r.value ==> labels[j] != x
  {
    if |labels| == 0 then None
    else if labels[0] == x then Some(0)
    else match IndexOf(labels[1..], x)
      case None => None
      case Some(i) => Some(i + 1)
  }

  /** Lists the elements of a set once each, in some order (pandas turns a set into an index). */
  method Enumerate<T>(s: set<T>) returns (xs: seq<T>)
    ensures Distinct(xs) && Elems(xs) == s && |xs| == |s|
  {
    xs := [];
    var rest := s;
    while rest != {}
      invariant Distinct(xs)
      invariant Elems(xs) + rest == s && Elems(xs) !! rest
      invariant |xs| + |rest| == |s|
      decreases |rest|
    {
      var x :| x in rest;
      assert Elems(xs + [x]) == Elems(xs) + {x};
      xs := xs + [x];
      rest := rest - {x};
    }
  }

  /** The blocks' elements one after another. */
  function Flatten<T>(blocks: seq<seq<T>>): seq<T> {
    if blocks == [] then [] else Flatten(blocks[..|blocks| - 1]) + blocks[|blocks| - 1]
  }

  lemma FlattenStep<T>(blocks: seq<seq<T>>, b: seq<T>)
    ensures Flatten(blocks + [b]) == Flatten(blocks) + b
  {
    assert (blocks + [b])[..|blocks|] == blocks;
  }

  /** With blocks of three, element `k` of the flattening is element `k % 3` of block `k / 3`. */
  lemma {:induction false} FlattenThrees<T>(blocks: seq<seq<T>>, k: nat)
    requires forall i :: 0 <= i < |blocks| ==> |blocks[i]| == 3
    ensures |Flatten(blocks)| == 3 * |blocks|
    ensures k < 3 * |blocks| ==> Flatten(blocks)[k] == blocks[k / 3][k % 3]
  {
    if blocks != [] {
      var n := |blocks| - 1;
      FlattenThrees(blocks[..n], k);
      if k < 3 * n {
        assert blocks[..n][k / 3] == blocks[k / 3];
      }
    }
  }

  /** The sum of `f` over `xs`, added left to right. */
  function Sum<T>(xs: seq<T>, f: T -> real): real {
    if xs == [] then 0.0 else Sum(xs[..|xs| - 1], f) + f(xs[|xs| - 1])
  }

  lemma {:induction false} SumAppend<T>(a: seq<T>, b: seq<T>, f: T -> real)
    ensures Sum(a + b, f) == Sum(a, f) + Sum(b, f)
  {
    if b == [] {
      assert a + b == a;
    } else {
      assert (a + b)[..|a + b| - 1] == a + b[..|b| - 1];
      SumAppend(a, b[..|b| - 1], f);
    }
  }

  /** Taking one term out of a sum. */
  lemma SumRemove<T>(b: seq<T>, j: nat, f: T -> real)
    requires j < |b|
    ensures Sum(b, f) == Sum(b[..j] + b[j + 1..], f) + f(b[j])
  {
    assert b == (b[..j] + [b[j]]) + b[j + 1..];
    SumAppend(b[..j] + [b[j]], b[j + 1..], f);
    assert (b[..j] + [b[j]])[..j] == b[..j];
    SumAppend(b[..j], b[j + 1..], f);
  }

  lemma MultisetRemove<T>(b: seq<T>, j: nat)
    requires j < |b|
    ensures multiset(b[..j] + b[j + 1..]) == multiset(b) - multiset{b[j]}
  {
    assert b == b[..j] + [b[j]] + b[j + 1..];
  }

  /** A sum does not depend on the order of its terms. */
  lemma {:induction false} SumPermutation<T>(a: seq<T>, b: seq<T>, f: T -> real)
    requires multiset(a) == multiset(b)
    ensures Sum(a, f) == Sum(b, f)
  {
    if a == [] {
      assert |b| == |multiset(b)| == 0;
    } else {
      var n := |a| - 1;
      var x, a' := a[n], a[..n];
      assert x in multiset(b);
      var j :| 0 <= j < |b| && b[j] == x;
      var b' := b[..j] + b[j + 1..];
      MultisetRemove(a, n);
      MultisetRemove(b, j);
      assert a[..n] + a[n + 1..] == a';
      assert multiset(a') == multiset(b');
      SumPermutation(a', b', f);
      SumRemove(b, j, f);
      assert Sum(a, f) == Sum(a', f) + f(x);
    }
  }
}
