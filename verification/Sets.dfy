/** Sizes of sets. */
module Sets {
  lemma SubsetSize<T>(small: set<T>, large: set<T>)
    requires small <= large
    ensures |large - small| == |large| - |small|
    ensures |small| <= |large|
  {
    assert large == small + (large - small);
  }
}
