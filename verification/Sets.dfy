/** Small facts about finite sets, sums over them and positions in a run. */
module Sets {
  lemma Inhabited<T(!new)>(s: set<T>)
    requires s != {}
    ensures exists x :: x in s
  {
  }

  lemma Pick<T(!new)>(s: set<T>) returns (x: T)
    requires s != {}
    ensures x in s
  {
    Inhabited(s);
    x :| x in s;
  }

  lemma OnlyElement<T(!new)>(s: set<T>) returns (x: T)
    requires |s| == 1
    ensures s == {x}
  {
    Inhabited(s);
    x :| x in s;
    assert |s - {x}| == 0;
  }

  lemma Contained<T(!new)>(a: set<T>, b: set<T>)
    requires forall x <- a :: x in b
    ensures a <= b
  {
  }

  ghost function Image<A(!new), B(!new)>(s: set<A>, f: A -> B): set<B> {
    set x | x in s :: f(x)
  }

  lemma ImageGrows<A(!new), B(!new)>(s: set<A>, x: A, f: A -> B)
    requires forall y <- s :: f(y) != f(x)
    ensures |Image(s + {x}, f)| == |Image(s, f)| + 1
  {
    assert Image(s + {x}, f) == Image(s, f) + {f(x)};
  }

  lemma {:induction false} Smaller<T(!new)>(a: set<T>, b: set<T>)
    requires a <= b
    ensures |a| <= |b|
  {
    assert |b| == |a| + |b - a| by {
      assert b == a + (b - a);
    }
  }

  lemma FourParts<T(!new)>(p: set<T>, q: set<T>, r: set<T>, s: set<T>)
    requires p !! q !! r !! s
    ensures |p + q + r + s| == |p| + |q| + |r| + |s|
  {
    assert |p + q + r| == |p + q| + |r|;
  }

  ghost function Sum<T(!new)>(s: set<T>, f: T -> int): int {
    if x :| x in s then f(x) + Sum(s - {x}, f) else 0
  }

  lemma {:induction false} SumSplit<T(!new)>(s: set<T>, x: T, f: T -> int)
    requires x in s
    ensures Sum(s, f) == f(x) + Sum(s - {x}, f)
  {
    var y :| y in s && Sum(s, f) == f(y) + Sum(s - {y}, f);
    if y != x {
      SumSplit(s - {y}, x, f);
      SumSplit(s - {x}, y, f);
      assert s - {y} - {x} == s - {x} - {y};
    }
  }

  lemma {:induction false} SumSame<T(!new)>(s: set<T>, f: T -> int, g: T -> int)
    requires forall x <- s :: f(x) == g(x)
    ensures Sum(s, f) == Sum(s, g)
  {
    if x :| x in s {
      SumSplit(s, x, f);
      SumSplit(s, x, g);
      SumSame(s - {x}, f, g);
    }
  }

  lemma {:induction false} SumAtMost<T(!new)>(s: set<T>, f: T -> int, top: int)
    requires forall x <- s :: f(x) <= top
    ensures Sum(s, f) <= top * |s|
  {
    if x :| x in s {
      SumSplit(s, x, f);
      SumAtMost(s - {x}, f, top);
      assert top * |s| == top * |s - {x}| + top;
    }
  }

  lemma {:induction false} SumAtLeast<T(!new)>(s: set<T>, f: T -> int, low: int)
    requires forall x <- s :: low <= f(x)
    ensures low * |s| <= Sum(s, f)
  {
    if x :| x in s {
      SumSplit(s, x, f);
      SumAtLeast(s - {x}, f, low);
      assert low * |s| == low * |s - {x}| + low;
    }
  }

  /** Two sums agree along a one-to-one pairing of their terms. */
  lemma {:induction false} SumPaired<A(!new), B(!new)>(s: set<A>, f: A -> int, t: set<B>, g: B -> int, pair: A -> B)
    requires forall x <- s :: pair(x) in t && f(x) == g(pair(x))
    requires forall x, y | x in s && y in s && pair(x) == pair(y) :: x == y
    requires forall z <- t :: exists x <- s :: pair(x) == z
    ensures Sum(s, f) == Sum(t, g)
  {
    if x :| x in s {
      SumSplit(s, x, f);
      SumSplit(t, pair(x), g);
      SumPaired(s - {x}, f, t - {pair(x)}, g, pair);
    } else {
      assert t == {};
    }
  }

  lemma Parts<T>(all: set<T>, part: set<T>)
    requires part <= all
    ensures |all - part| == |all| - |part|
  {
    assert all == (all - part) + part;
  }

  /** An integer that is not in the set. */
  lemma {:induction false} Unused(ids: set<int>) returns (id: int)
    ensures forall x <- ids :: x < id
  {
    if ids == {} {
      id := 0;
    } else {
      var x := Pick(ids);
      id := Unused(ids - {x});
      var rest := ids - {x};
      assert forall y <- ids :: y == x || y in rest;
      if id <= x { id := x + 1; }
    }
  }

  /** Where p starts to hold. */
  lemma {:induction false} Turn(p: int -> bool, n: nat) returns (i: nat)
    requires !p(0) && p(n)
    ensures i < n && !p(i) && p(i + 1)
  {
    if p(n - 1) {
      i := Turn(p, n - 1);
    } else {
      i := n - 1;
    }
  }

  /** The elements that f maps to y. */
  ghost function Fibre<A(!new), B(!new)>(s: set<A>, f: A -> B, y: B): set<A> {
    set x | x in s && f(x) == y
  }

  lemma WithoutFibre<A(!new), B(!new)>(s: set<A>, f: A -> B, y: B)
    requires y in Image(s, f)
    ensures |s - Fibre(s, f, y)| == |s| - |Fibre(s, f, y)|
    ensures |Image(s - Fibre(s, f, y), f)| == |Image(s, f)| - 1
    ensures forall z | z != y :: Fibre(s - Fibre(s, f, y), f, z) == Fibre(s, f, z)
  {
    Parts(s, Fibre(s, f, y));
    assert Image(s - Fibre(s, f, y), f) == Image(s, f) - {y};
  }

  /** When each image comes from at most m elements, there are at most m times as many
      elements as images. */
  lemma {:induction false} FibreBound<A(!new), B(!new)>(s: set<A>, f: A -> B, m: nat)
    requires forall y <- Image(s, f) :: |Fibre(s, f, y)| <= m
    ensures |s| <= m * |Image(s, f)|
    decreases |s|
  {
    if x :| x in s {
      var y := f(x);
      var rest := s - Fibre(s, f, y);
      assert x in Fibre(s, f, y);
      WithoutFibre(s, f, y);
      FibreBound(rest, f, m);
      assert m * |Image(s, f)| == m * |Image(rest, f)| + m;
    }
  }
}
