/** The least element of a set of clock readings. */
module Minimum {

  function Max(a: int, b: int): int {
    if a > b then a else b
  }

  function Min(a: int, b: int): int {
    if a < b then a else b
  }

  predicate IsMin(x: int, xs: set<int>) {
    x in xs && forall y :: y in xs ==> x <= y
  }

  lemma {:induction false} MinExists(xs: set<int>)
    requires xs != {}
    ensures exists m :: IsMin(m, xs)
    decreases xs
  {
    var nothing: set<int> := {};
    assert (forall y :: y in xs <==> y in nothing) ==> xs == nothing;
    var x :| x in xs;
    var rest := xs - {x};
    if rest == {} {
      assert xs == {x};
      assert IsMin(x, xs);
    } else {
      MinExists(rest);
      var m :| IsMin(m, rest);
      assert forall y :: y in xs ==> y == x || y in rest;
      assert IsMin(if x < m then x else m, xs);
    }
  }

  ghost function Least(xs: set<int>): (m: int)
    requires xs != {}
    ensures IsMin(m, xs)
  {
    MinExists(xs);
    var m :| IsMin(m, xs);
    m
  }
}
