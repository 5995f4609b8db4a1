/** A fact about finite sets that several modules count with. */
module Sets {
  lemma {:induction false} SubsetSize<T>(a: set<T>, b: set<T>)
    requires a <= b
    ensures |a| <= |b|
    ensures |a| == |b| ==> a == b
    decreases |a|
  {
    if a != {} {
      var x :| x in a;
      SubsetSize(a - {x}, b - {x});
      if |a| == |b| { assert a == (a - {x}) + {x} && b == (b - {x}) + {x}; }
    }
  }
}
