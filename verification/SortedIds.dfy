/** A finite set of ids in ascending order, as collecting and sorting gives it. */
module SortedIds {
  function Sorted(ids: set<nat>): (r: seq<nat>)
    ensures forall id :: id in r <==> id in ids
    ensures forall i, j :: 0 <= i < j < |r| ==> r[i] < r[j]
  {
    if ids == {} then []
    else
      var m := Least(ids);
      [m] + Sorted(ids - {m})
  }

  function Least(ids: set<nat>): (m: nat)
    requires ids != {}
    ensures m in ids && forall x :: x in ids ==> m <= x
  {
    HasLeast(ids);
    var m :| m in ids && forall x :: x in ids ==> m <= x;
    m
  }

  lemma HasLeast(ids: set<nat>)
    requires ids != {}
    ensures exists m :: m in ids && forall x :: x in ids ==> m <= x
  {
    var m :| m in ids;
    while exists x :: x in ids && x < m
      invariant m in ids
      decreases m
    {
      var x :| x in ids && x < m;
      m := x;
    }
  }
}
