/** Sizes of finite sets. */
module Sets {
  /** A subset is no larger, and smaller unless it is the whole set. */
  lemma Fewer<T>(a: set<T>, b: set<T>)
    requires a <= b
    ensures |a| <= |b| && (a != b ==> |a| < |b|)
  {
    assert b == a + (b - a);
    if a != b { assert b - a != {}; }
  }
}
