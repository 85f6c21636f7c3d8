/** Sums over finite sets, where the order of the terms does not matter. */
module SetSums {

  ghost function SumOver<T(!new)>(s: set<T>, f: T -> int): int {
    if s == {} then 0
    else
      var x :| x in s;
      f(x) + SumOver(s - {x}, f)
  }

  /** Any member can be taken out first. */
  lemma {:induction false} SumOverTakes<T(!new)>(s: set<T>, x: T, f: T -> int)
    requires x in s
    ensures SumOver(s, f) == f(x) + SumOver(s - {x}, f)
    decreases s
  {
    var y :| y in s && SumOver(s, f) == f(y) + SumOver(s - {y}, f);
    if y != x {
      SumOverTakes(s - {y}, x, f);
      SumOverTakes(s - {x}, y, f);
      assert s - {y} - {x} == s - {x} - {y};
    }
  }

  lemma SumOverAdds<T(!new)>(s: set<T>, x: T, f: T -> int)
    requires x !in s
    ensures SumOver(s + {x}, f) == SumOver(s, f) + f(x)
  {
    SumOverTakes(s + {x}, x, f);
    assert s + {x} - {x} == s;
  }

  lemma {:induction false} SumOverAgrees<T(!new)>(s: set<T>, f: T -> int, g: T -> int)
    requires forall x :: x in s ==> f(x) == g(x)
    ensures SumOver(s, f) == SumOver(s, g)
    decreases s
  {
    if s == {} {
    } else {
      var x :| x in s && SumOver(s, f) == f(x) + SumOver(s - {x}, f);
      SumOverAgrees(s - {x}, f, g);
      SumOverTakes(s, x, g);
    }
  }

  /** Members whose term is zero can be left out. */
  lemma {:induction false} SumOverSkips<T(!new)>(s: set<T>, t: set<T>, f: T -> int)
    requires s <= t
    requires forall x :: x in t && x !in s ==> f(x) == 0
    ensures SumOver(s, f) == SumOver(t, f)
    decreases t
  {
    if exists x :: x in t && x !in s {
      var x :| x in t && x !in s;
      SumOverTakes(t, x, f);
      SumOverSkips(s, t - {x}, f);
    } else {
      assert s == t;
    }
  }
}
