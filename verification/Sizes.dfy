/** A part that is as large as the whole is the whole. */
module Sizes {

  lemma WholeSet<T>(part: set<T>, whole: set<T>)
    requires part <= whole
    ensures |part| == |whole| <==> part == whole
  {
    assert whole == part + (whole - part);
    assert |whole| == |part| + |whole - part|;
  }

  lemma WholeBag<T>(part: multiset<T>, whole: multiset<T>)
    requires part <= whole
    ensures |part| == |whole| <==> part == whole
  {
    assert whole == part + (whole - part);
  }
}
