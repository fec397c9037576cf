/**
 Small sequence vocabulary shared by every other module: optional values, filtering, mapping,
 summing, and the facts about them that later proofs lean on.
 */
module Base {
  datatype Option<+T> = None | Some(value: T)

  datatype Result<+T, +E> = Ok(value: T) | Err(error: E)

  function Filter<T(!new)>(xs: seq<T>, p: T -> bool): (r: seq<T>)
    ensures |r| <= |xs|
    ensures forall x :: x in r <==> x in xs && p(x)
  {
    if xs == [] then []
    else (if p(xs[0]) then [xs[0]] else []) + Filter(xs[1..], p)
  }

  lemma {:induction false} FilterConcat<T(!new)>(xs: seq<T>, ys: seq<T>, p: T -> bool)
    ensures Filter(xs + ys, p) == Filter(xs, p) + Filter(ys, p)
  {
    if xs == [] {
      assert xs + ys == ys;
    } else {
      assert (xs + ys)[1..] == xs[1..] + ys;
      FilterConcat(xs[1..], ys, p);
    }
  }

  lemma {:induction false} FilterAll<T(!new)>(xs: seq<T>, p: T -> bool)
    requires forall x :: x in xs ==> p(x)
    ensures Filter(xs, p) == xs
  {
    if xs != [] {
      FilterAll(xs[1..], p);
    }
  }

  lemma {:induction false} FilterMultiset<T(!new)>(xs: seq<T>, p: T -> bool, x: T)
    ensures multiset(Filter(xs, p))[x] == if p(x) then multiset(xs)[x] else 0
  {
    if xs != [] {
      assert xs == [xs[0]] + xs[1..];
      FilterMultiset(xs[1..], p, x);
    }
  }

  /** Permuting a list permutes what a filter keeps of it. */
  lemma FilterPermutes<T(!new)>(xs: seq<T>, ys: seq<T>, p: T -> bool)
    requires multiset(xs) == multiset(ys)
    ensures multiset(Filter(xs, p)) == multiset(Filter(ys, p))
  {
    forall x: T
      ensures multiset(Filter(xs, p))[x] == multiset(Filter(ys, p))[x]
    {
      FilterMultiset(xs, p, x);
      FilterMultiset(ys, p, x);
    }
  }

  function Map<T, U>(xs: seq<T>, f: T -> U): (r: seq<U>)
    ensures |r| == |xs|
    ensures forall i :: 0 <= i < |xs| ==> r[i] == f(xs[i])
  {
    seq(|xs|, i requires 0 <= i < |xs| => f(xs[i]))
  }

  lemma {:induction false} MapConcat<T, U>(xs: seq<T>, ys: seq<T>, f: T -> U)
    ensures Map(xs + ys, f) == Map(xs, f) + Map(ys, f)
  {
    assert forall i :: 0 <= i < |xs + ys| ==> Map(xs + ys, f)[i] == (Map(xs, f) + Map(ys, f))[i];
  }

  lemma MapSplit<T, U>(ys: seq<T>, i: nat, f: T -> U)
    requires i < |ys|
    ensures Map(ys, f) == Map(ys[..i], f) + [f(ys[i])] + Map(ys[i + 1..], f)
  {
    var parts := Map(ys[..i], f) + [f(ys[i])] + Map(ys[i + 1..], f);
    forall k | 0 <= k < |ys|
      ensures Map(ys, f)[k] == parts[k]
    {
      if k > i {
        assert parts[k] == Map(ys[i + 1..], f)[k - i - 1];
        assert ys[i + 1..][k - i - 1] == ys[k];
      }
    }
  }

  /** Permuting a list permutes its image. */
  lemma {:induction false} MapPermutes<T, U>(xs: seq<T>, ys: seq<T>, f: T -> U)
    requires multiset(xs) == multiset(ys)
    ensures multiset(Map(xs, f)) == multiset(Map(ys, f))
    decreases |xs|
  {
    if xs == [] {
      assert |multiset(ys)| == 0;
    } else {
      var i := Removed(xs, ys);
      MapPermutes(xs[1..], ys[..i] + ys[i + 1..], f);
      MapConcat(ys[..i], ys[i + 1..], f);
      MapSplit(ys, i, f);
      MapSplit(xs, 0, f);
      assert Map(xs, f) == [f(xs[0])] + Map(xs[1..], f);
    }
  }

  /** Where the head of one permutation sits in the other. */
  lemma Removed<T>(xs: seq<T>, ys: seq<T>) returns (i: nat)
    requires xs != [] && multiset(xs) == multiset(ys)
    ensures i < |ys| && ys[i] == xs[0]
    ensures multiset(xs[1..]) == multiset(ys[..i] + ys[i + 1..])
  {
    assert xs[0] in multiset(ys);
    i :| 0 <= i < |ys| && ys[i] == xs[0];
    assert xs == [xs[0]] + xs[1..];
    assert ys == ys[..i] + [ys[i]] + ys[i + 1..];
    assert multiset(xs[1..]) == multiset(xs) - multiset{xs[0]};
    assert multiset(ys[..i] + ys[i + 1..]) == multiset(ys) - multiset{ys[i]};
  }

  function Sum(xs: seq<int>): int {
    if xs == [] then 0 else xs[0] + Sum(xs[1..])
  }

  lemma {:induction false} SumConcat(xs: seq<int>, ys: seq<int>)
    ensures Sum(xs + ys) == Sum(xs) + Sum(ys)
  {
    if xs == [] {
      assert xs + ys == ys;
    } else {
      assert (xs + ys)[1..] == xs[1..] + ys;
      SumConcat(xs[1..], ys);
    }
  }

  lemma {:induction false} SumPermutes(xs: seq<int>, ys: seq<int>)
    requires multiset(xs) == multiset(ys)
    ensures Sum(xs) == Sum(ys)
    decreases |xs|
  {
    if xs == [] {
      assert |multiset(ys)| == 0;
    } else {
      var i := Removed(xs, ys);
      SumPermutes(xs[1..], ys[..i] + ys[i + 1..]);
      SumConcat(ys[..i], ys[i..]);
      SumConcat(ys[..i], ys[i + 1..]);
      assert ys == ys[..i] + ys[i..];
    }
  }

  /** A sum of bounded terms is bounded by the number of terms. */
  lemma {:induction false} SumBound(xs: seq<int>, b: int)
    requires 0 <= b
    requires forall i :: 0 <= i < |xs| ==> -b <= xs[i] <= b
    ensures -(|xs| * b) <= Sum(xs) <= |xs| * b
  {
    if xs != [] {
      SumBound(xs[1..], b);
      assert |xs| * b == (|xs| - 1) * b + b;
    }
  }

  lemma {:induction false} PermutedLength<T(!new)>(xs: seq<T>, ys: seq<T>)
    requires multiset(xs) == multiset(ys)
    ensures |xs| == |ys|
    ensures forall x :: x in xs <==> x in ys
  {
    assert |multiset(xs)| == |multiset(ys)|;
    forall x
      ensures x in xs <==> x in ys
    {
      assert x in xs <==> x in multiset(xs);
      assert x in ys <==> x in multiset(ys);
    }
  }
}
