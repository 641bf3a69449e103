/** Finite sets of integers in ascending order. */
module SortedSets {

  ghost predicate Ascending(ts: seq<int>) {
    forall i, j :: 0 <= i < j < |ts| ==> ts[i] < ts[j]
  }

  lemma EmptyOrInhabited(s: set<int>)
    ensures s == {} || exists x :: x in s
  {
    if !exists x :: x in s {
      assert s == {};
    }
  }

  lemma {:induction false} HasLeast(s: set<int>, x: int)
    requires x in s
    ensures exists m :: m in s && forall y :: y in s ==> m <= y
    decreases s
  {
    if y :| y in s && y < x {
      HasLeast(s - {x}, y);
      var l :| l in s - {x} && forall z :: z in s - {x} ==> l <= z;
      assert l <= y < x;
      assert forall z :: z in s ==> z == x || z in s - {x};
    }
  }

  function Least(s: set<int>): (m: int)
    requires s != {}
    ensures m in s && forall x :: x in s ==> m <= x
  {
    EmptyOrInhabited(s);
    assert exists m :: m in s && forall x :: x in s ==> m <= x by {
      var x :| x in s;
      HasLeast(s, x);
    }
    var m :| m in s && forall x :: x in s ==> m <= x;
    m
  }

  /** The elements of a set in ascending order: what sorting the map's entries yields. */
  function Sorted(s: set<int>): (ts: seq<int>)
    ensures Ascending(ts)
    ensures forall t :: t in ts <==> t in s
  {
    if s == {} then [] else [Least(s)] + Sorted(s - {Least(s)})
  }

  lemma {:induction false} AscendingUnique(a: seq<int>, b: seq<int>)
    requires Ascending(a) && Ascending(b)
    requires forall t :: t in a <==> t in b
    ensures a == b
  {
    assert (a != [] ==> a[0] in a) && (b != [] ==> b[0] in b);
    if a != [] && b != [] {
      assert a[0] in a && b[0] in b;
      assert a[0] == b[0];
      forall t ensures t in a[1..] <==> t in b[1..] {
        assert t in a[1..] <==> t in a && t != a[0];
        assert t in b[1..] <==> t in b && t != b[0];
      }
      AscendingUnique(a[1..], b[1..]);
    }
  }

  lemma SortedUnion(s: set<int>, t: set<int>)
    requires forall x, y :: x in s && y in t ==> x < y
    ensures Sorted(s + t) == Sorted(s) + Sorted(t)
  {
    var both := Sorted(s) + Sorted(t);
    forall i, j | 0 <= i < j < |both| ensures both[i] < both[j] {
      assert i < |Sorted(s)| ==> Sorted(s)[i] in s;
      assert j >= |Sorted(s)| ==> Sorted(t)[j - |Sorted(s)|] in t;
    }
    forall x ensures x in Sorted(s + t) <==> x in both {
    }
    AscendingUnique(Sorted(s + t), both);
  }
}
