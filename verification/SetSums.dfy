/** Sums of an integer function over a finite set of integers. */
module SetSums {

  ghost function Any<T>(s: set<T>): (x: T)
    requires s != {}
    ensures x in s
  {
    var x :| x in s; x
  }

  lemma SomeMember(s: set<int>)
    requires s != {}
    ensures exists x: int :: x in s
  {
    var x := Any(s);
    assert x in s;
  }

  ghost function Pick(s: set<int>): (x: int)
    requires s != {}
    ensures x in s
  {
    Any(s)
  }

  ghost function Sum(s: set<int>, f: int -> int): int {
    if s == {} then 0 else
      var x := Pick(s);
      f(x) + Sum(s - {x}, f)
  }

  lemma {:induction false} SumSplit(s: set<int>, f: int -> int, x: int)
    requires x in s
    ensures Sum(s, f) == f(x) + Sum(s - {x}, f)
    decreases |s|
  {
    var y := Pick(s);
    if y != x {
      SumSplit(s - {y}, f, x);
      SumSplit(s - {x}, f, y);
      assert s - {y} - {x} == s - {x} - {y};
    }
  }

  lemma {:induction false} SumMonotone(s: set<int>, f: int -> int, g: int -> int)
    requires forall x | x in s :: f(x) <= g(x)
    ensures Sum(s, f) <= Sum(s, g)
  {
    if s != {} {
      SumMonotone(s - {Pick(s)}, f, g);
    }
  }

  lemma SumEqual(s: set<int>, f: int -> int, g: int -> int)
    requires forall x | x in s :: f(x) == g(x)
    ensures Sum(s, f) == Sum(s, g)
  {
    SumMonotone(s, f, g);
    SumMonotone(s, g, f);
  }

  lemma {:induction false} SumConstant(s: set<int>, c: int)
    ensures Sum(s, _ => c) == c * |s|
  {
    if s != {} {
      var x := Pick(s);
      SumConstant(s - {x}, c);
      assert |s| == |s - {x}| + 1;
    }
  }

  lemma {:induction false} SumPairs(s: set<int>, f0: int -> int, f1: int -> int, g0: int -> int, g1: int -> int)
    requires forall x | x in s :: f0(x) + f1(x) <= g0(x) + g1(x)
    ensures Sum(s, f0) + Sum(s, f1) <= Sum(s, g0) + Sum(s, g1)
  {
    if s != {} {
      SumPairs(s - {Pick(s)}, f0, f1, g0, g1);
    }
  }

  lemma SumStrict(s: set<int>, f: int -> int, g: int -> int, x: int)
    requires x in s && f(x) < g(x)
    requires forall y | y in s :: f(y) <= g(y)
    ensures Sum(s, f) < Sum(s, g)
  {
    SumSplit(s, f, x);
    SumSplit(s, g, x);
    SumMonotone(s - {x}, f, g);
  }
}
