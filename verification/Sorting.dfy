/**
 Python's `sorted(..., key=...)`: a stable sort. What it promises is stated here apart from how
 it works: the result is ordered, a permutation, keeps ties in input order, and a sorted list
 whose ties are equal is the only one of its kind.
 */
module Sorting {
  import opened Base

  ghost predicate TotalPreorder<T(!new)>(le: (T, T) -> bool) {
    && (forall x, y :: le(x, y) || le(y, x))
    && (forall x, y, z :: le(x, y) && le(y, z) ==> le(x, z))
  }

  ghost predicate SortedBy<T>(xs: seq<T>, le: (T, T) -> bool) {
    forall i, j :: 0 <= i < j < |xs| ==> le(xs[i], xs[j])
  }

  function Insert<T>(x: T, ys: seq<T>, le: (T, T) -> bool): seq<T> {
    if ys == [] || le(x, ys[0]) then [x] + ys
    else [ys[0]] + Insert(x, ys[1..], le)
  }

  function StableSort<T>(xs: seq<T>, le: (T, T) -> bool): seq<T> {
    if xs == [] then [] else Insert(xs[0], StableSort(xs[1..], le), le)
  }

  lemma {:induction false} InsertPermutes<T>(x: T, ys: seq<T>, le: (T, T) -> bool)
    ensures multiset(Insert(x, ys, le)) == multiset([x] + ys)
  {
    if ys != [] && !le(x, ys[0]) {
      InsertPermutes(x, ys[1..], le);
      assert ys == [ys[0]] + ys[1..];
    }
  }

  lemma {:induction false} StableSortPermutes<T>(xs: seq<T>, le: (T, T) -> bool)
    ensures multiset(StableSort(xs, le)) == multiset(xs)
  {
    if xs != [] {
      StableSortPermutes(xs[1..], le);
      InsertPermutes(xs[0], StableSort(xs[1..], le), le);
      assert xs == [xs[0]] + xs[1..];
    }
  }

  lemma {:induction false} InsertSorted<T(!new)>(x: T, ys: seq<T>, le: (T, T) -> bool)
    requires TotalPreorder(le) && SortedBy(ys, le)
    ensures SortedBy(Insert(x, ys, le), le)
  {
    if ys != [] && !le(x, ys[0]) {
      InsertSorted(x, ys[1..], le);
      var rest := Insert(x, ys[1..], le);
      InsertPermutes(x, ys[1..], le);
      PermutedLength(rest, [x] + ys[1..]);
      forall j | 0 <= j < |rest|
        ensures le(ys[0], rest[j])
      {
        assert rest[j] in [x] + ys[1..];
      }
    } else if ys != [] {
      assert forall j :: 0 <= j < |ys| ==> j == 0 || le(ys[0], ys[j]);
    }
  }

  lemma {:induction false} StableSortSorts<T(!new)>(xs: seq<T>, le: (T, T) -> bool)
    requires TotalPreorder(le)
    ensures SortedBy(StableSort(xs, le), le)
  {
    if xs != [] {
      StableSortSorts(xs[1..], le);
      InsertSorted(xs[0], StableSort(xs[1..], le), le);
    }
  }

  lemma {:induction false} InsertKeepsClass<T(!new)>(x: T, ys: seq<T>, le: (T, T) -> bool, p: T -> bool)
    requires forall a, b :: p(a) && p(b) ==> le(a, b)
    ensures Filter(Insert(x, ys, le), p) == Filter([x] + ys, p)
  {
    if ys != [] && !le(x, ys[0]) {
      InsertKeepsClass(x, ys[1..], le, p);
      assert ([x] + ys)[1..] == ys;
      assert ([x] + ys[1..])[1..] == ys[1..];
      assert !p(x) || !p(ys[0]);
    }
  }

  /** Stability: the members of any class of ties come out in the order they went in. */
  lemma {:induction false} StableSortIsStable<T(!new)>(xs: seq<T>, le: (T, T) -> bool, p: T -> bool)
    requires forall a, b :: p(a) && p(b) ==> le(a, b)
    ensures Filter(StableSort(xs, le), p) == Filter(xs, p)
  {
    if xs != [] {
      StableSortIsStable(xs[1..], le, p);
      var ys := StableSort(xs[1..], le);
      InsertKeepsClass(xs[0], ys, le, p);
      assert ([xs[0]] + ys)[1..] == ys;
    }
  }

  lemma HeadsTie<T(!new)>(xs: seq<T>, ys: seq<T>, le: (T, T) -> bool)
    requires TotalPreorder(le) && SortedBy(xs, le) && SortedBy(ys, le)
    requires xs != [] && ys != [] && ys[0] in xs && xs[0] in ys
    ensures le(xs[0], ys[0]) && le(ys[0], xs[0])
  {
    var j :| 0 <= j < |xs| && xs[j] == ys[0];
    var i :| 0 <= i < |ys| && ys[i] == xs[0];
    assert le(xs[0], xs[0]);
  }

  lemma TailsPermute<T>(xs: seq<T>, ys: seq<T>)
    requires xs != [] && ys != [] && xs[0] == ys[0]
    requires multiset(xs) == multiset(ys)
    ensures multiset(xs[1..]) == multiset(ys[1..])
  {
    assert xs == [xs[0]] + xs[1..] && ys == [ys[0]] + ys[1..];
    assert multiset(xs[1..]) == multiset(xs) - multiset{xs[0]};
    assert multiset(ys[1..]) == multiset(ys) - multiset{ys[0]};
  }

  /** Two sorted permutations of each other are equal when tied elements are equal. */
  lemma {:induction false} SortedUnique<T(!new)>(xs: seq<T>, ys: seq<T>, le: (T, T) -> bool)
    requires TotalPreorder(le) && SortedBy(xs, le) && SortedBy(ys, le)
    requires multiset(xs) == multiset(ys)
    requires forall x, y :: x in xs && y in xs && le(x, y) && le(y, x) ==> x == y
    ensures xs == ys
    decreases |xs|
  {
    PermutedLength(xs, ys);
    if xs != [] {
      HeadsTie(xs, ys, le);
      TailsPermute(xs, ys);
      SortedUnique(xs[1..], ys[1..], le);
    }
  }

  // ---- Swapping tied neighbours ----

  /** Tied elements compare alike with everything. */
  lemma TiedAlike<T(!new)>(x: T, y: T, z: T, le: (T, T) -> bool)
    requires TotalPreorder(le) && le(x, y) && le(y, x)
    ensures le(x, z) == le(y, z) && le(z, x) == le(z, y)
  {
  }

  lemma InsertCons<T>(x: T, h: T, t: seq<T>, le: (T, T) -> bool)
    ensures Insert(x, [h] + t, le) == if le(x, h) then [x] + ([h] + t) else [h] + Insert(x, t, le)
  {
    assert ([h] + t)[1..] == t;
  }

  lemma ConsPair<T>(x: T, y: T, s: seq<T>)
    ensures [x] + ([y] + s) == [x, y] + s == [] + ([x, y] + s)
  {
  }

  lemma ConsAssoc<T>(h: T, c: seq<T>, s: seq<T>)
    ensures [h] + (c + s) == ([h] + c) + s
  {
  }

  /** Two tied elements go in side by side, the later inserted one first. */
  lemma {:induction false} InsertPair<T(!new)>(x: T, y: T, ys: seq<T>, le: (T, T) -> bool)
    returns (a: seq<T>, b: seq<T>)
    requires TotalPreorder(le) && le(x, y) && le(y, x)
    ensures ys == a + b
    ensures Insert(x, Insert(y, ys, le), le) == a + ([x, y] + b)
    ensures Insert(y, Insert(x, ys, le), le) == a + ([y, x] + b)
  {
    hide TotalPreorder, Insert;
    if ys == [] {
      a, b := [], [];
      InsertEmpty(x, le);
      InsertEmpty(y, le);
      InsertCons(x, y, [], le);
      InsertCons(y, x, [], le);
      ConsPair(x, y, []);
      ConsPair(y, x, []);
      assert [x] + [] == [x] && [y] + [] == [y];
    } else {
      var h, t := ys[0], ys[1..];
      assert ys == [h] + t;
      TiedAlike(x, y, h, le);
      InsertCons(x, h, t, le);
      InsertCons(y, h, t, le);
      if le(x, h) {
        a, b := [], ys;
        InsertCons(x, y, ys, le);
        InsertCons(y, x, ys, le);
        ConsPair(x, y, ys);
        ConsPair(y, x, ys);
      } else {
        var c, d := InsertPair(x, y, t, le);
        a, b := [h] + c, d;
        InsertCons(x, h, Insert(y, t, le), le);
        InsertCons(y, h, Insert(x, t, le), le);
        ConsAssoc(h, c, [x, y] + d);
        ConsAssoc(h, c, [y, x] + d);
      }
    }
  }

  lemma InsertEmpty<T>(x: T, le: (T, T) -> bool)
    ensures Insert(x, [], le) == [x]
  {
  }

  /** Inserting among swapped neighbours leaves them neighbours. */
  lemma {:induction false} InsertAround<T(!new)>(z: T, a: seq<T>, x: T, y: T, b: seq<T>, le: (T, T) -> bool)
    returns (c: seq<T>, d: seq<T>)
    requires TotalPreorder(le) && le(x, y) && le(y, x)
    ensures Insert(z, a + ([x, y] + b), le) == c + ([x, y] + d)
    ensures Insert(z, a + ([y, x] + b), le) == c + ([y, x] + d)
  {
    hide TotalPreorder, Insert;
    var u, v := a + ([x, y] + b), a + ([y, x] + b);
    if a == [] {
      ConsPair(x, y, b);
      ConsPair(y, x, b);
      TiedAlike(x, y, z, le);
      InsertCons(z, x, [y] + b, le);
      InsertCons(z, y, [x] + b, le);
      if le(z, x) {
        c, d := [z], b;
      } else {
        InsertCons(z, y, b, le);
        InsertCons(z, x, b, le);
        c, d := [], Insert(z, b, le);
        ConsPair(x, y, d);
        ConsPair(y, x, d);
      }
    } else {
      var h, t := a[0], a[1..];
      assert a == [h] + t;
      ConsAssoc(h, t, [x, y] + b);
      ConsAssoc(h, t, [y, x] + b);
      InsertCons(z, h, t + ([x, y] + b), le);
      InsertCons(z, h, t + ([y, x] + b), le);
      if le(z, h) {
        c, d := [z] + a, b;
        ConsAssoc(z, a, [x, y] + b);
        ConsAssoc(z, a, [y, x] + b);
      } else {
        var e, f := InsertAround(z, t, x, y, b, le);
        c, d := [h] + e, f;
        ConsAssoc(h, e, [x, y] + f);
        ConsAssoc(h, e, [y, x] + f);
      }
    }
  }

  /** Swapping two tied neighbours of the input swaps them in the output, and nothing else. */
  lemma {:induction false} SwapSurvives<T(!new)>(pre: seq<T>, x: T, y: T, post: seq<T>, le: (T, T) -> bool)
    returns (c: seq<T>, d: seq<T>)
    requires TotalPreorder(le) && le(x, y) && le(y, x)
    ensures StableSort(pre + ([x, y] + post), le) == c + ([x, y] + d)
    ensures StableSort(pre + ([y, x] + post), le) == c + ([y, x] + d)
  {
    hide TotalPreorder, Insert;
    var u, v := pre + ([x, y] + post), pre + ([y, x] + post);
    if pre == [] {
      assert u[1..] == [y] + post && v[1..] == [x] + post;
      assert u[1..][1..] == post && v[1..][1..] == post;
      c, d := InsertPair(x, y, StableSort(post, le), le);
    } else {
      assert u[1..] == pre[1..] + ([x, y] + post) && v[1..] == pre[1..] + ([y, x] + post);
      var a, b := SwapSurvives(pre[1..], x, y, post, le);
      c, d := InsertAround(pre[0], a, x, y, b, le);
    }
  }
}
