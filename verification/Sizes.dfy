/** Sizes of sets within sets. */
module Sizes {

  lemma {:induction false} OfPart<T>(x: set<T>, y: set<T>)
    requires x <= y
    ensures |y| == |x| + |y - x|
  {
    assert y == x + (y - x);
  }

  lemma {:induction false} AllOfThem<T>(x: set<T>, y: set<T>)
    requires x <= y && |x| == |y|
    ensures x == y
  {
    OfPart(x, y);
    assert y == x + (y - x);
  }
}
