/** Sequences without repetitions, sizes of sets and greatest elements. */
module Collections {
  ghost predicate Distinct<T>(xs: seq<T>) {
    forall i, j :: 0 <= i < j < |xs| ==> xs[i] != xs[j]
  }

  ghost function Elements<T>(xs: seq<T>): set<T> {
    set x | x in xs
  }

  lemma {:induction false} DistinctSize<T>(xs: seq<T>)
    ensures |Elements(xs)| <= |xs|
    ensures Distinct(xs) <==> |Elements(xs)| == |xs|
  {
    if xs != [] {
      var front, last := xs[..|xs| - 1], xs[|xs| - 1];
      DistinctSize(front);
      assert Elements(xs) == Elements(front) + {last};
      if last in front {
        assert Elements(xs) == Elements(front);
        assert !Distinct(xs) by {
          var i :| 0 <= i < |front| && front[i] == last;
          assert xs[i] == xs[|xs| - 1];
        }
      } else {
        assert Distinct(front) ==> Distinct(xs) by {
          assert forall i :: 0 <= i < |front| ==> xs[i] in front;
        }
      }
    }
  }

  lemma {:induction false} Listing<T>(s: set<T>) returns (xs: seq<T>)
    ensures Distinct(xs) && Elements(xs) == s && |xs| == |s|
    decreases |s|
  {
    if s == {} {
      xs := [];
    } else {
      var x :| x in s;
      var rest := Listing(s - {x});
      assert x !in rest by { assert x !in Elements(rest); }
      xs := rest + [x];
      assert Elements(xs) == Elements(rest) + {x} == s;
    }
  }

  lemma SubsetSize<T>(a: set<T>, b: set<T>)
    requires a <= b
    ensures |a| <= |b|
  {
    assert |b| == |a| + |b - a| by { assert b == a + (b - a); }
  }

  predicate Greatest(m: int, s: set<int>) {
    m in s && forall x :: x in s ==> x <= m
  }

  lemma {:induction false} GreatestOf(xs: seq<int>) returns (m: int)
    requires xs != []
    ensures Greatest(m, Elements(xs))
  {
    var front, last := xs[..|xs| - 1], xs[|xs| - 1];
    assert Elements(xs) == Elements(front) + {last};
    if front == [] {
      m := last;
    } else {
      m := GreatestOf(front);
      m := if m < last then last else m;
    }
  }

  lemma HasGreatest(s: set<int>)
    requires s != {}
    ensures exists m :: Greatest(m, s)
  {
    var xs := Listing(s);
    assert xs != [] by { assert xs == [] ==> Elements(xs) == {}; }
    var m := GreatestOf(xs);
  }

  function Max(s: set<int>): (m: int)
    requires s != {}
    ensures Greatest(m, s)
  {
    HasGreatest(s);
    var m :| Greatest(m, s);
    m
  }

  /** As many elements as there are numbers below `n`, at most, when each has a number of its own. */
  lemma {:induction false} Pigeonhole<T>(s: set<T>, number: T -> int, n: nat)
    requires forall x :: x in s ==> 0 <= number(x) < n
    requires forall x, y :: x in s && y in s && x != y ==> number(x) != number(y)
    ensures |s| <= n
    decreases n
  {
    if x :| x in s && number(x) == n - 1 {
      Pigeonhole(s - {x}, number, n - 1);
    } else if n > 0 {
      Pigeonhole(s, number, n - 1);
    } else {
      assert s == {};
    }
  }
}
