/**
  What the other modules need to know about finite sets and listings of them.
 */
module Collections {

  /** The sequence lists the set: every element once, in some order. */
  ghost predicate IsOrder<T>(order: seq<T>, s: set<T>) {
    && (forall i, j :: 0 <= i < j < |order| ==> order[i] != order[j])
    && (forall x <- order :: x in s)
    && (forall x <- s :: x in order)
  }

  /** The places, in order: exactly the chosen ones. */
  ghost predicate PicksInOrder(places: seq<nat>, chosen: set<nat>) {
    && (forall m, n :: 0 <= m < n < |places| ==> places[m] < places[n])
    && (forall i :: i in places <==> i in chosen)
  }

  /** One place more, after all others. */
  lemma PickNext(places: seq<nat>, chosen: set<nat>, last: nat)
    requires PicksInOrder(places, chosen) && forall i <- chosen :: i < last
    ensures PicksInOrder(places + [last], chosen + {last})
  {
    assert forall m :: 0 <= m < |places| ==> places[m] in places;
  }

  lemma {:induction false} OrderSize<T>(order: seq<T>, s: set<T>)
    requires IsOrder(order, s)
    ensures |order| == |s|
  {
    if order != [] {
      var n := |order| - 1;
      assert order == order[..n] + [order[n]];
      OrderSize(order[..n], s - {order[n]});
    } else {
      assert s == {};
    }
  }

  lemma {:induction false} SubsetSize<T>(a: set<T>, b: set<T>)
    requires a <= b
    ensures |a| <= |b|
    ensures |a| == |b| ==> a == b
  {
    if a != {} {
      var x :| x in a;
      SubsetSize(a - {x}, b - {x});
    }
  }

  /** Every set can be listed. */
  lemma {:induction false} SomeOrder<T>(s: set<T>) returns (order: seq<T>)
    ensures IsOrder(order, s)
  {
    if s == {} {
      order := [];
    } else {
      var x :| x in s;
      order := SomeOrder(s - {x});
      order := [x] + order;
    }
  }

  /** A set can be listed beginning with any of its elements. */
  lemma OrderFrom<T>(s: set<T>, x: T) returns (order: seq<T>)
    requires x in s
    ensures IsOrder(order, s) && order != [] && order[0] == x
  {
    var rest := SomeOrder(s - {x});
    order := [x] + rest;
  }

  /** There is one way to list a set exactly when it has at most one element. */
  lemma OneOrderIff<T>(s: set<T>)
    ensures (forall a, b :: IsOrder(a, s) && IsOrder(b, s) ==> a == b) <==> |s| <= 1
  {
    if |s| <= 1 {
      forall a, b | IsOrder(a, s) && IsOrder(b, s)
        ensures a == b
      {
        OrderSize(a, s);
        OrderSize(b, s);
        if a != [] {
          SingletonHas(s, a[0], b[0]);
        }
      }
    } else {
      var x, y := TwoOf(s);
      var a := OrderFrom(s, x);
      var b := OrderFrom(s, y);
    }
  }

  lemma SingletonHas<T>(s: set<T>, x: T, y: T)
    requires |s| <= 1 && x in s && y in s
    ensures x == y
  {
    SubsetSize({x, y}, s);
  }

  lemma TwoOf<T>(s: set<T>) returns (x: T, y: T)
    requires |s| > 1
    ensures x in s && y in s && x != y
  {
    x :| x in s;
    assert |s - {x}| == |s| - 1;
    y :| y in s - {x};
  }

  /** A sequence has as many elements as places exactly when it repeats none. */
  lemma {:induction false} ElementCount<T>(s: seq<T>)
    ensures |set x | x in s| <= |s|
    ensures |set x | x in s| == |s| <==> forall i, j :: 0 <= i < j < |s| ==> s[i] != s[j]
  {
    if s != [] {
      var n := |s| - 1;
      ElementCount(s[..n]);
      assert s == s[..n] + [s[n]];
      var before := set x | x in s[..n];
      assert (set x | x in s) == before + {s[n]};
      if s[n] in before {
        var i :| 0 <= i < n && s[i] == s[n];
        assert before + {s[n]} == before;
      } else {
        assert forall i :: 0 <= i < n ==> s[i] in before;
      }
    }
  }
}
