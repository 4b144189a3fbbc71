/** Small facts about multiplying and dividing reals by a positive factor,
    which the solver does not find on its own. */
module RealArith {

  lemma {:induction false} MulMonotone(a: real, b: real, c: real)
    requires a <= b && c >= 0.0
    ensures a * c <= b * c
  {
    assert (b - a) * c >= 0.0;
  }

  lemma {:induction false} DivLeIff(a: real, w: real, b: real)
    requires w > 0.0
    ensures a / w <= b <==> a <= w * b
  {
    assert a == (a / w) * w;
    if a / w <= b {
      assert (b - a / w) * w >= 0.0;
    } else {
      assert (a / w - b) * w > 0.0;
    }
  }

  lemma {:induction false} DivBounds(s: real, n: real, lo: real, hi: real)
    requires n > 0.0 && n * lo <= s <= n * hi
    ensures lo <= s / n <= hi
  {
    assert s / n * n == s;
    assert (s / n - lo) * n >= 0.0;
    assert (hi - s / n) * n >= 0.0;
  }
}
