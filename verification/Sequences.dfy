/** Sequences of ints as sets, and the sizes of sets. */
module Sequences {
  ghost function SetOf(s: seq<int>): set<int> { set x <- s }

  lemma SetOfAppend(s: seq<int>, v: int)
    ensures SetOf(s + [v]) == SetOf(s) + {v}
  {
    assert forall x :: x in s + [v] <==> x in s || x == v;
  }

  lemma SubsetSize(x: set<int>, y: set<int>)
    requires x <= y
    ensures |x| <= |y|
  {
    assert |y - x| == |y| - |x|;
  }
}
