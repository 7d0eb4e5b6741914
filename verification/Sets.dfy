/** Finite sets. */
module Sets {

  function SetOf<T>(s: seq<T>): set<T> {
    set x | x in s
  }

  lemma ElementOf<T>(s: set<T>) returns (x: T)
    requires s != {}
    ensures x in s
  {
    assert |s| > 0;
    x :| x in s;
  }

  lemma {:induction false} SubsetIsSmaller<T>(a: set<T>, b: set<T>)
    requires a <= b
    ensures |a| <= |b|
  {
    if a != {} {
      var x := ElementOf(a);
      SubsetIsSmaller(a - {x}, b - {x});
    }
  }

  /** The size of a disjoint union. */
  lemma UnionCounts<T(!new)>(all: set<T>, a: set<T>, b: set<T>)
    requires forall x :: x in all <==> x in a + b
    requires forall x :: !(x in a && x in b)
    ensures |all| == |a| + |b|
  {
    assert all == a + b;
    assert a !! b;
  }

  /** A set and its image under a function that tells its elements apart have the same size. */
  lemma {:induction false} ImageCounts<A(!new), B(!new)>(s: set<A>, f: A -> B, t: set<B>)
    requires forall a :: a in s ==> f(a) in t
    requires forall a, b :: a in s && b in s && f(a) == f(b) ==> a == b
    requires forall y :: y in t ==> exists a :: a in s && f(a) == y
    ensures |s| == |t|
    decreases |s|
  {
    if s == {} {
      if t != {} {
        var y := ElementOf(t);
      }
    } else {
      var x := ElementOf(s);
      var s', t' := s - {x}, t - {f(x)};
      forall y | y in t' ensures exists a :: a in s' && f(a) == y {
        var a :| a in s && f(a) == y;
        assert a in s';
      }
      ImageCounts(s', f, t');
    }
  }

  /** When each element has a partner and no two share one, there are as many partners. */
  lemma {:induction false} RelationCounts<A(!new), B(!new)>(s: set<A>, related: (A, B) -> bool, t: set<B>)
    requires forall a :: a in s ==> exists b :: b in t && related(a, b)
    requires forall a, a', b :: a in s && a' in s && related(a, b) && related(a', b) ==> a == a'
    ensures |s| <= |t|
    decreases |s|
  {
    if s != {} {
      var x := ElementOf(s);
      var y :| y in t && related(x, y);
      var s', t' := s - {x}, t - {y};
      forall a | a in s' ensures exists b :: b in t' && related(a, b) {
        var b :| b in t && related(a, b);
        assert b != y;
      }
      RelationCounts(s', related, t');
    }
  }
}
